/** Reading one MCP server out of Codex's config.toml and deleting its tables
    (internal/automation/codex.go). */
module CodexServers {
  import opened Text
  import opened Json
  import opened CodexSyntax

  // ---- the reader ----

  /** The line machine: section "" is outside the server, "." its own table,
      "-" a table below one of its sub-tables, else the name of a sub-table. */
  datatype Scan = Scan(section: string, found: bool, out: map<string, Json>)

  const START: Scan := Scan("", false, map[])

  const MCP := "mcp_servers"

  predicate IsServer(keys: seq<string>, name: string) {
    |keys| >= 2 && keys[0] == MCP && keys[1] == name
  }

  function Enter(st: Scan, keys: seq<string>, name: string): Scan {
    if !IsServer(keys, name) then st.(section := "")
    else st.(found := true, section := if |keys| == 2 then "." else if |keys| == 3 then keys[2] else "-")
  }

  /** "k = v" cut at its first '='. */
  function Entry(line: string): Option<(string, string)> {
    var i := IndexOf(line, '=');
    if i == |line| then None
    else Some((Trim(TrimSpace(line[..i]), QUOTES), TrimSpace(line[i + 1..])))
  }

  /** An array that does not end on its line. */
  predicate Open(v: string) {
    HasPrefix(v, "[") && ']' !in v
  }

  /** A value read on to the line with its closing bracket, and how many more
      lines that took. */
  function ReadOn(v: string, lines: seq<string>): (r: (string, nat))
    ensures r.1 <= |lines|
    decreases |lines|
  {
    if ']' in v || lines == [] then (v, 0)
    else
      var r := ReadOn(v + " " + Clean(lines[0]), lines[1..]);
      (r.0, r.1 + 1)
  }

  function Value(v: string, lines: seq<string>): (r: (string, nat))
    ensures r.1 <= |lines|
  {
    if Open(v) then ReadOn(v, lines) else (v, 0)
  }

  function Store(st: Scan, k: string, val: Option<Json>): Scan {
    if val.None? then st
    else if st.section == "." then st.(out := st.out[k := val.value])
    else
      var m := if st.section in st.out && st.out[st.section].Obj? then st.out[st.section].fields else map[];
      st.(out := st.out[st.section := Obj(m[k := val.value])])
  }

  /** One line that is neither blank nor a continuation; n more lines used. */
  function Line(lines: seq<string>, name: string, st: Scan): (r: (Scan, nat))
    requires lines != []
    ensures 1 <= r.1 <= |lines|
  {
    var line := Clean(lines[0]);
    if line == "" then (st, 1)
    else
      match Header(line)
      case Some(keys) => (Enter(st, keys, name), 1)
      case None =>
        if st.section == "" || st.section == "-" then (st, 1)
        else
          match Entry(line)
          case None => (st, 1)
          case Some((k, v)) =>
            var r := Value(v, lines[1..]);
            (Store(st, k, ReadValue(r.0)), 1 + r.1)
  }

  function Read(lines: seq<string>, name: string, st: Scan): Scan {
    if lines == [] then st
    else
      var r := Line(lines, name, st);
      Read(lines[r.1..], name, r.0)
  }

  function Member(out: map<string, Json>, k: string): map<string, Json> {
    if k in out then map[k := out[k]] else map[]
  }

  function Headers(out: map<string, Json>, env: map<string, string>): map<string, Json> {
    var own := if "http_headers" in out && out["http_headers"].Obj? then out["http_headers"].fields else map[];
    if "bearer_token_env_var" in out && out["bearer_token_env_var"].Str? && out["bearer_token_env_var"].s != "" then
      var v := out["bearer_token_env_var"].s;
      own["Authorization" := Str(if v in env && env[v] != "" then "Bearer " + env[v] else "Bearer ${" + v + "}")]
    else own
  }

  /** What the reader returns of the keys it met, env being the environment. */
  function Config(out: map<string, Json>, env: map<string, string>): map<string, Json> {
    var headers := Headers(out, env);
    Member(out, "command") + Member(out, "args") + Member(out, "env") + Member(out, "url")
    + (if headers != map[] then map["headers" := Obj(headers)] else map[])
    + (if "url" in out then map["type" := Str("http")] else map[])
  }

  /** codexServer on a file's text: the server's config, or not found. */
  function Server(raw: string, name: string, env: map<string, string>): Option<map<string, Json>> {
    var st := Read(Lines(raw), name, START);
    if st.found then Some(Config(st.out, env)) else None
  }

  // ---- the remover ----

  predicate ServerHeader(line: string, name: string) {
    var h := Header(TrimSpace(line));
    h.Some? && IsServer(h.value, name)
  }

  /** Whether the remover skips from this line on. */
  predicate Skips(line: string, name: string, skip: bool) {
    if Header(TrimSpace(line)).Some? then ServerHeader(line, name) else skip
  }

  function Keep(lines: seq<string>, name: string, skip: bool): seq<string> {
    if lines == [] then []
    else
      var skip := Skips(lines[0], name, skip);
      (if skip then [] else [lines[0]]) + Keep(lines[1..], name, skip)
  }

  lemma KeepCons(l: string, more: seq<string>, name: string, skip: bool)
    ensures Keep([l] + more, name, skip)
         == (if Skips(l, name, skip) then [] else [l]) + Keep(more, name, Skips(l, name, skip))
  {
    assert ([l] + more)[1..] == more;
  }

  predicate HasTable(lines: seq<string>, name: string) {
    exists l | l in lines :: ServerHeader(l, name)
  }

  /** removeCodexServer: the text it writes, or none when it finds no table. */
  function Remove(raw: string, name: string): Option<string> {
    if HasTable(Lines(raw), name) then Some(Join(Keep(Lines(raw), name, false), "\n")) else None
  }

  /** Line i stands in a table of the server: the last header down to it is one
      of the server's. */
  ghost predicate InTable(lines: seq<string>, name: string, i: nat)
    requires i < |lines|
  {
    exists h | 0 <= h <= i :: ServerHeader(lines[h], name) && forall j | h < j <= i :: Header(TrimSpace(lines[j])).None?
  }

  /** Whether the remover skips after i lines. */
  function SkipAfter(lines: seq<string>, name: string, i: nat): bool
    requires i <= |lines|
  {
    if i == 0 then false else Skips(lines[i - 1], name, SkipAfter(lines, name, i - 1))
  }

  lemma {:induction false} SkipsInTable(lines: seq<string>, name: string, i: nat)
    requires i < |lines|
    ensures SkipAfter(lines, name, i + 1) <==> InTable(lines, name, i)
  {
    hide Header, TrimSpace;
    if Header(TrimSpace(lines[i])).Some? {
      if ServerHeader(lines[i], name) { assert InTable(lines, name, i); }
    } else if i > 0 {
      SkipsInTable(lines, name, i - 1);
      if InTable(lines, name, i - 1) {
        var h :| 0 <= h <= i - 1 && ServerHeader(lines[h], name) && forall j | h < j <= i - 1 :: Header(TrimSpace(lines[j])).None?;
        assert InTable(lines, name, i);
      }
      if InTable(lines, name, i) {
        var h :| 0 <= h <= i && ServerHeader(lines[h], name) && forall j | h < j <= i :: Header(TrimSpace(lines[j])).None?;
        assert h <= i - 1;
      }
    }
  }

  lemma {:induction false} KeepFrom(lines: seq<string>, name: string, n: nat) returns (at: seq<nat>)
    requires n <= |lines|
    ensures |at| == |Keep(lines[n..], name, SkipAfter(lines, name, n))|
    ensures forall k | 0 <= k < |at| :: n <= at[k] < |lines| && Keep(lines[n..], name, SkipAfter(lines, name, n))[k] == lines[at[k]]
    ensures forall j, k | 0 <= j < k < |at| :: at[j] < at[k]
    ensures forall i | n <= i < |lines| :: i in at <==> !SkipAfter(lines, name, i + 1)
    decreases |lines| - n
  {
    hide Skips;
    if n == |lines| {
      at := [];
    } else {
      assert lines[n..][1..] == lines[n + 1..];
      var rest := KeepFrom(lines, name, n + 1);
      at := if SkipAfter(lines, name, n + 1) then rest else [n] + rest;
    }
  }

  /** A removal keeps exactly the lines that stand in no table of the server, in
      their order. */
  lemma KeepExactly(lines: seq<string>, name: string) returns (at: seq<nat>)
    ensures |at| == |Keep(lines, name, false)|
    ensures forall k | 0 <= k < |at| :: at[k] < |lines| && Keep(lines, name, false)[k] == lines[at[k]]
    ensures forall j, k | 0 <= j < k < |at| :: at[j] < at[k]
    ensures forall i | 0 <= i < |lines| :: i in at <==> !InTable(lines, name, i)
  {
    hide InTable, Skips, Keep;
    at := KeepFrom(lines, name, 0);
    assert lines[0..] == lines;
    forall i | 0 <= i < |lines| ensures i in at <==> !InTable(lines, name, i) { SkipsInTable(lines, name, i); }
  }

  // ---- the entries a reading takes ----

  /** raw: the value's text, read on to its closing bracket. */
  datatype Taken = Taken(section: string, key: string, raw: string)

  /** The entry the reader takes from a line in state st. */
  function EntryAt(line: string, st: Scan): Option<(string, string)> {
    if Header(Clean(line)).Some? || st.section == "" || st.section == "-" then None else Entry(Clean(line))
  }

  function FirstTaken(lines: seq<string>, st: Scan): seq<Taken>
    requires lines != []
  {
    match EntryAt(lines[0], st)
    case None => []
    case Some((k, v)) => [Taken(st.section, k, Value(v, lines[1..]).0)]
  }

  function Reads(lines: seq<string>, name: string, st: Scan): seq<Taken> {
    if lines == [] then []
    else
      var r := Line(lines, name, st);
      FirstTaken(lines, st) + Reads(lines[r.1..], name, r.0)
  }

  function Stored(out: map<string, Json>, taken: seq<Taken>): map<string, Json>
    decreases |taken|
  {
    if taken == [] then out
    else Stored(Store(Scan(taken[0].section, true, out), taken[0].key, ReadValue(taken[0].raw)).out, taken[1..])
  }

  /** The entries taken decide what is read. */
  lemma {:induction false} ReadsDecide(lines: seq<string>, name: string, st: Scan)
    ensures Read(lines, name, st).out == Stored(st.out, Reads(lines, name, st))
    decreases |lines|
  {
    hide Line, FirstTaken, Store;
    if lines != [] {
      var r := Line(lines, name, st);
      ReadsDecide(lines[r.1..], name, r.0);
      FirstStored(lines, name, st);
      StoredJoin(st.out, FirstTaken(lines, st), Reads(lines[r.1..], name, r.0));
    }
  }

  lemma {:induction false} StoredJoin(out: map<string, Json>, a: seq<Taken>, b: seq<Taken>)
    ensures Stored(out, a + b) == Stored(Stored(out, a), b)
    decreases |a|
  {
    if a == [] {
      assert a + b == b;
    } else {
      assert (a + b)[1..] == a[1..] + b;
      StoredJoin(Store(Scan(a[0].section, true, out), a[0].key, ReadValue(a[0].raw)).out, a[1..], b);
    }
  }

  lemma FirstStored(lines: seq<string>, name: string, st: Scan)
    requires lines != []
    ensures Line(lines, name, st).0.out == Stored(st.out, FirstTaken(lines, st))
  {
    hide Clean, Header, Entry, ReadValue, Value;
    BlankTakes(lines, name, st);
  }

  lemma BlankTakes(lines: seq<string>, name: string, st: Scan)
    requires lines != []
    ensures Clean(lines[0]) == "" ==> EntryAt(lines[0], st).None? && Header(Clean(lines[0])).None?
  {
    assert Header("").None?;
  }

  // ---- removal leaves every other server as it was ----

  /** No line read on for v is a header the remover takes out. */
  predicate Spares(v: string, lines: seq<string>, name: string)
    decreases |lines|
  {
    ']' in v || lines == []
    || (!ServerHeader(lines[0], name) && Spares(v + " " + Clean(lines[0]), lines[1..], name))
  }

  predicate SparesLine(lines: seq<string>, name: string, st: Scan)
    requires lines != []
  {
    var e := EntryAt(lines[0], st);
    e.Some? && Open(e.value.1) ==> Spares(e.value.1, lines[1..], name)
  }

  /** No array opened while reading `other` runs over a header of `name`. */
  predicate SparesAll(lines: seq<string>, name: string, other: string, st: Scan)
    decreases |lines|
  {
    lines == []
    || (SparesLine(lines, name, st)
        && var r := Line(lines, other, st); SparesAll(lines[r.1..], name, other, r.0))
  }

  /** Lines read on are kept, and read the same among the kept ones. */
  lemma {:induction false} KeepReadOn(v: string, lines: seq<string>, name: string)
    requires Spares(v, lines, name)
    ensures var n := ReadOn(v, lines).1; var kept := Keep(lines, name, false);
            && ReadOn(v, kept) == ReadOn(v, lines)
            && kept[n..] == Keep(lines[n..], name, false)
    decreases |lines|
  {
    var kept := Keep(lines, name, false);
    if ']' in v || lines == [] {
      assert lines[0..] == lines && kept[0..] == kept;
    } else {
      var w := v + " " + Clean(lines[0]);
      KeepReadOn(w, lines[1..], name);
      var n := ReadOn(w, lines[1..]).1;
      assert kept == [lines[0]] + Keep(lines[1..], name, false);
      assert kept[1..] == Keep(lines[1..], name, false);
      assert kept[1..][n..] == kept[n + 1..];
      assert lines[1..][n..] == lines[n + 1..];
    }
  }

  /** A header closes an array it is read on for. */
  lemma HeaderCloses(line: string)
    requires Header(TrimSpace(line)).Some?
    ensures ']' in Clean(line)
  {
    HeaderIgnoresComment(line);
    var c := Clean(line);
    var text := TrimSpace(Before(c, '#'));
    assert text[|text| - 1] == ']';
    TrimChars(Before(c, '#'), SPACES);
  }

  /** While the remover skips, the next line kept is a header, not of `name`. */
  lemma {:induction false} KeepNext(lines: seq<string>, name: string)
    ensures var kept := Keep(lines, name, true);
            kept != [] ==> Header(TrimSpace(kept[0])).Some? && !ServerHeader(kept[0], name)
  {
    if lines != [] && Skips(lines[0], name, true) {
      KeepNext(lines[1..], name);
    }
  }

  /** An array that runs over a header taken out is read differently without it. */
  lemma {:induction false} SwallowedReadOn(v: string, lines: seq<string>, name: string)
    requires !Spares(v, lines, name)
    ensures ReadOn(v, Keep(lines, name, false)).0 != ReadOn(v, lines).0
    decreases |lines|
  {
    hide Clean, Header;
    var kept := Keep(lines, name, false);
    var w := v + " " + Clean(lines[0]);
    if ServerHeader(lines[0], name) {
      HeaderCloses(lines[0]);
      HeaderIgnoresComment(lines[0]);
      KeepNext(lines[1..], name);
      assert ReadOn(w, lines[1..]) == (w, 0);
      assert kept == Keep(lines[1..], name, true);
      if kept != [] {
        HeaderCloses(kept[0]);
        HeaderIgnoresComment(kept[0]);
        var x := v + " " + Clean(kept[0]);
        assert ReadOn(x, kept[1..]) == (x, 0);
        assert x[|v| + 1..] == Clean(kept[0]) && w[|v| + 1..] == Clean(lines[0]);
      }
    } else {
      assert kept == [lines[0]] + Keep(lines[1..], name, false);
      assert kept[1..] == Keep(lines[1..], name, false);
      SwallowedReadOn(w, lines[1..], name);
    }
  }

  /** The two scans differ at most in the section, while the remover skips. */
  ghost predicate Same(st: Scan, kept: Scan, skip: bool) {
    && st.found == kept.found && st.out == kept.out
    && (if skip then st.section == "" else st.section == kept.section)
  }

  /** The frame of a removal, from any state inside the file: the same entries
      are taken from the lines kept exactly when no array of `other` runs over
      a header taken out. */
  lemma {:induction false} FrameScan(lines: seq<string>, name: string, other: string, skip: bool, st: Scan, kept: Scan)
    requires name != other && Same(st, kept, skip)
    ensures Reads(lines, other, st) == Reads(Keep(lines, name, skip), other, kept) <==> SparesAll(lines, name, other, st)
    decreases |lines|
  {
    hide Clean, Header, Line, FirstTaken, SparesLine;
    if lines != [] {
      HeaderIgnoresComment(lines[0]);
      if Skips(lines[0], name, skip) {
        FrameSkipped(lines, name, other, skip, st);
        FrameScan(lines[1..], name, other, true, st.(section := ""), kept);
        assert Keep(lines, name, skip) == Keep(lines[1..], name, true);
        assert Reads(lines, other, st) == Reads(lines[1..], other, st.(section := ""));
      } else {
        var k := Keep(lines, name, skip);
        assert k == [lines[0]] + Keep(lines[1..], name, false);
        assert k[1..] == Keep(lines[1..], name, false);
        if SparesLine(lines, name, st) {
          FrameKept(lines, name, other, st, kept, k);
          var r, s := Line(lines, other, st), Line(k, other, kept);
          FrameScan(lines[r.1..], name, other, false, r.0, s.0);
          SameHead(FirstTaken(lines, st), Reads(lines[r.1..], other, r.0), Reads(k[s.1..], other, s.0));
        } else {
          FrameBroken(lines, name, other, st, kept, k);
        }
      }
    }
  }

  /** A line the remover drops says nothing about another server. */
  lemma FrameSkipped(lines: seq<string>, name: string, other: string, skip: bool, st: Scan)
    requires lines != [] && name != other && Skips(lines[0], name, skip) && (skip ==> st.section == "")
    ensures Line(lines, other, st) == (st.(section := ""), 1)
    ensures FirstTaken(lines, st) == [] && SparesLine(lines, name, st)
  {
    HeaderIgnoresComment(lines[0]);
    if Clean(lines[0]) == "" { assert Header("").None?; }
  }

  lemma SameHead(head: seq<Taken>, a: seq<Taken>, b: seq<Taken>)
    ensures head + a == head + b <==> a == b
  {
    assert (head + a)[|head|..] == a && (head + b)[|head|..] == b;
  }

  lemma FrameKept(lines: seq<string>, name: string, other: string, st: Scan, kept: Scan, k: seq<string>)
    requires lines != [] && SparesLine(lines, name, st) && st.found == kept.found && st.out == kept.out
    requires Header(Clean(lines[0])).None? ==> st.section == kept.section
    requires k != [] && k[0] == lines[0] && k[1..] == Keep(lines[1..], name, false)
    ensures var r := Line(lines, other, st); var s := Line(k, other, kept);
            && 1 <= r.1 <= |lines| && r.1 == s.1 && Same(r.0, s.0, false)
            && k[r.1..] == Keep(lines[r.1..], name, false)
    ensures FirstTaken(k, kept) == FirstTaken(lines, st)
  {
    hide Clean, Header, Entry, ReadValue, Value, Keep;
    BlankTakes(lines, other, st);
    TakesAlike(lines[0], st, kept);
    if EntryAt(lines[0], st).Some? {
      EntryKept(lines, name, st, k);
      assert EntryAt(k[0], kept) == EntryAt(lines[0], st);
    }
  }

  lemma EntryKept(lines: seq<string>, name: string, st: Scan, k: seq<string>)
    requires lines != [] && SparesLine(lines, name, st) && EntryAt(lines[0], st).Some?
    requires k != [] && k[1..] == Keep(lines[1..], name, false)
    ensures var v := EntryAt(lines[0], st).value.1;
            && Value(v, k[1..]) == Value(v, lines[1..])
            && k[1 + Value(v, lines[1..]).1..] == Keep(lines[1 + Value(v, lines[1..]).1..], name, false)
  {
    hide EntryAt, Keep;
    var v := EntryAt(lines[0], st).value.1;
    var n := Value(v, lines[1..]).1;
    if Open(v) {
      KeepReadOn(v, lines[1..], name);
      assert k[1..][n..] == k[n + 1..];
      assert lines[1..][n..] == lines[n + 1..];
    }
  }

  lemma FrameBroken(lines: seq<string>, name: string, other: string, st: Scan, kept: Scan, k: seq<string>)
    requires lines != [] && !SparesLine(lines, name, st)
    requires Header(Clean(lines[0])).None? ==> st.section == kept.section
    requires k != [] && k[0] == lines[0] && k[1..] == Keep(lines[1..], name, false)
    ensures Reads(lines, other, st) != Reads(k, other, kept)
  {
    hide EntryAt, Line, Clean, Header;
    var v := EntryAt(lines[0], st).value.1;
    SwallowedReadOn(v, lines[1..], name);
    assert EntryAt(k[0], kept) == EntryAt(lines[0], st) by { TakesAlike(lines[0], st, kept); }
    assert Reads(lines, other, st)[0].raw == Value(v, lines[1..]).0;
    assert Reads(k, other, kept)[0].raw == Value(v, k[1..]).0;
  }

  lemma TakesAlike(line: string, st: Scan, kept: Scan)
    requires Header(Clean(line)).None? ==> st.section == kept.section
    ensures EntryAt(line, st) == EntryAt(line, kept)
  {
    hide Clean, Header, Entry;
  }

  // ---- the reader and the remover see the same tables ----

  /** Once found, found. */
  lemma {:induction false} FoundStays(lines: seq<string>, name: string, st: Scan)
    requires st.found
    ensures Read(lines, name, st).found
    decreases |lines|
  {
    if lines != [] {
      var r := Line(lines, name, st);
      FoundStays(lines[r.1..], name, r.0);
    }
  }

  /** Outside the server every line is looked at, and none stores anything. */
  lemma OutsideLine(lines: seq<string>, name: string, st: Scan)
    requires lines != [] && st.section == ""
    ensures ServerHeader(lines[0], name) ==> Line(lines, name, st).0.found
    ensures !ServerHeader(lines[0], name) ==> Line(lines, name, st) == (st, 1)
  {
    HeaderIgnoresComment(lines[0]);
    assert Header("").None?;
  }

  lemma {:induction false} NoTableScan(lines: seq<string>, name: string, st: Scan)
    requires st.section == "" && !HasTable(lines, name)
    ensures Read(lines, name, st) == st
    decreases |lines|
  {
    if lines != [] {
      assert !ServerHeader(lines[0], name);
      OutsideLine(lines, name, st);
      NoTableScan(lines[1..], name, st);
    }
  }

  lemma {:induction false} TableScan(lines: seq<string>, name: string, st: Scan)
    requires st.section == "" && HasTable(lines, name)
    ensures Read(lines, name, st).found
    decreases |lines|
  {
    OutsideLine(lines, name, st);
    var r := Line(lines, name, st);
    if ServerHeader(lines[0], name) {
      FoundStays(lines[r.1..], name, r.0);
    } else {
      var l :| l in lines && ServerHeader(l, name);
      assert l in lines[1..];
      TableScan(lines[1..], name, st);
    }
  }

  /** The reader finds a server exactly when the remover would find a table. */
  lemma ReaderFindsTables(raw: string, name: string, env: map<string, string>)
    ensures Server(raw, name, env).Some? <==> HasTable(Lines(raw), name)
  {
    if HasTable(Lines(raw), name) {
      TableScan(Lines(raw), name, START);
    } else {
      NoTableScan(Lines(raw), name, START);
    }
  }

  lemma {:induction false} NoTableAppend(lines: seq<string>, more: seq<string>, name: string, st: Scan)
    requires st.section == "" && !HasTable(lines, name)
    ensures Read(lines + more, name, st) == Read(more, name, st)
    decreases |lines|
  {
    var all := lines + more;
    if lines == [] {
      assert all == more;
    } else {
      assert all[0] == lines[0] && !ServerHeader(all[0], name);
      assert all[1..] == lines[1..] + more;
      OutsideLine(all, name, st);
      assert Read(all, name, st) == Read(all[1..], name, st);
      NoTableAppend(lines[1..], more, name, st);
    }
  }

  // ---- main results on removal ----

  lemma {:induction false} KeepDropsTables(lines: seq<string>, name: string, skip: bool)
    ensures forall l | l in Keep(lines, name, skip) :: l in lines && !ServerHeader(l, name)
  {
    if lines != [] {
      KeepDropsTables(lines[1..], name, Skips(lines[0], name, skip));
    }
  }

  lemma EmptyFile(name: string)
    ensures Lines("") == [""] && !HasTable([""], name)
  {
    assert TrimSpace("") == "";
    assert Header("").None?;
    assert !ServerHeader("", name);
  }

  /** The lines of the file after a removal. */
  lemma RemovedLines(raw: string, name: string)
    requires Remove(raw, name).Some?
    ensures var kept := Keep(Lines(raw), name, false);
            Lines(Remove(raw, name).value) == if kept == [] then [""] else kept
  {
    var kept := Keep(Lines(raw), name, false);
    KeepDropsTables(Lines(raw), name, false);
    LinesOneLine(raw);
    if kept == [] {
      EmptyFile(name);
    } else {
      LinesJoin(kept);
    }
  }

  /** A server can be removed exactly when it can be read. */
  lemma RemovesWhatIsRead(raw: string, name: string, env: map<string, string>)
    ensures Remove(raw, name).Some? <==> Server(raw, name, env).Some?
  {
    ReaderFindsTables(raw, name, env);
  }

  /** The file after a removal: exactly the lines that stand in no table of the
      server, in their order (a file with none left is empty). */
  lemma RemovedExactly(raw: string, name: string) returns (at: seq<nat>)
    requires Remove(raw, name).Some?
    ensures var before, after := Lines(raw), Lines(Remove(raw, name).value);
            && (at == [] ==> after == [""])
            && (at != [] ==> |after| == |at| && forall k | 0 <= k < |at| :: at[k] < |before| && after[k] == before[at[k]])
            && (forall j, k | 0 <= j < k < |at| :: at[j] < at[k])
            && (forall i | 0 <= i < |before| :: i in at <==> !InTable(before, name, i))
  {
    hide Lines, Keep, InTable, Remove;
    RemovedLines(raw, name);
    at := KeepExactly(Lines(raw), name);
  }

  /** Once removed, a server cannot be read, whatever else the file holds. */
  lemma RemovedUnreadable(raw: string, name: string, env: map<string, string>)
    requires Remove(raw, name).Some?
    ensures Server(Remove(raw, name).value, name, env).None?
  {
    RemovedLines(raw, name);
    KeepDropsTables(Lines(raw), name, false);
    EmptyFile(name);
    ReaderFindsTables(Remove(raw, name).value, name, env);
  }

  lemma {:induction false} KeepTables(lines: seq<string>, name: string, other: string, skip: bool)
    requires name != other
    ensures HasTable(Keep(lines, name, skip), other) <==> HasTable(lines, other)
  {
    hide Header, TrimSpace;
    if lines != [] {
      var more := Keep(lines[1..], name, Skips(lines[0], name, skip));
      KeepTables(lines[1..], name, other, Skips(lines[0], name, skip));
      assert lines == [lines[0]] + lines[1..];
      TableCons(lines[0], lines[1..], other);
      TableCons(lines[0], more, other);
    }
  }

  lemma TableCons(l: string, more: seq<string>, name: string)
    ensures HasTable([l] + more, name) <==> ServerHeader(l, name) || HasTable(more, name)
  {
    assert ([l] + more)[0] == l;
    assert forall x | x in more :: x in [l] + more;
  }

  /** A removal leaves the entries taken for another server as they were exactly
      when none of its arrays runs over a header taken out. */
  lemma RemovalExact(raw: string, name: string, other: string)
    requires Remove(raw, name).Some? && other != name
    ensures Reads(Lines(Remove(raw, name).value), other, START) == Reads(Lines(raw), other, START)
       <==> SparesAll(Lines(raw), name, other, START)
  {
    RemovedLines(raw, name);
    EmptyFile(other);
    BlankTakes([""], other, START);
    FrameScan(Lines(raw), name, other, false, START, START);
  }

  /** It then leaves what is read for it as it was, too. */
  lemma RemovalFrame(raw: string, name: string, other: string, env: map<string, string>)
    requires Remove(raw, name).Some? && other != name && SparesAll(Lines(raw), name, other, START)
    ensures Server(Remove(raw, name).value, other, env) == Server(raw, other, env)
  {
    hide Read, Reads, Lines, Remove, HasTable, SparesAll;
    var raw' := Remove(raw, name).value;
    RemovalExact(raw, name, other);
    SameEntries(raw', raw, other, env);
    RemovedTables(raw, name, other);
  }

  lemma RemovedTables(raw: string, name: string, other: string)
    requires Remove(raw, name).Some? && other != name
    ensures HasTable(Lines(Remove(raw, name).value), other) <==> HasTable(Lines(raw), other)
  {
    RemovedLines(raw, name);
    EmptyFile(other);
    KeepTables(Lines(raw), name, other, false);
  }

  /** The same tables and the same entries are the same server. */
  lemma SameEntries(raw: string, raw': string, name: string, env: map<string, string>)
    requires Reads(Lines(raw), name, START) == Reads(Lines(raw'), name, START)
    ensures (HasTable(Lines(raw), name) <==> HasTable(Lines(raw'), name)) ==> Server(raw, name, env) == Server(raw', name, env)
  {
    hide Read, Reads, HasTable;
    ReadsDecide(Lines(raw), name, START);
    ReadsDecide(Lines(raw'), name, START);
    ReaderFindsTables(raw, name, env);
    ReaderFindsTables(raw', name, env);
  }

  // ---- lines added at the end of the file ----

  /** An array of the server's runs to the end of the file. */
  predicate EndsOpen(lines: seq<string>, name: string, st: Scan) {
    exists t | t in Reads(lines, name, st) :: Open(t.raw)
  }

  /** An array that ends among the lines does not see what is added; one that
      does not takes in the header added first. */
  lemma {:induction false} ReadOnAdded(v: string, lines: seq<string>, more: seq<string>)
    requires more != [] && Header(TrimSpace(more[0])).Some?
    ensures HasPrefix(v, "[") ==> HasPrefix(ReadOn(v, lines).0, "[")
    ensures if ']' in ReadOn(v, lines).0 then ReadOn(v, lines + more) == ReadOn(v, lines)
            else ReadOn(v, lines + more).0 != ReadOn(v, lines).0
    decreases |lines|
  {
    hide Clean, Header;
    if ']' !in v {
      if lines == [] {
        assert lines + more == more;
        HeaderCloses(more[0]);
        assert |v + " " + Clean(more[0])| > |v|;
      } else {
        assert (lines + more)[1..] == lines[1..] + more;
        ReadOnAdded(v + " " + Clean(lines[0]), lines[1..], more);
      }
    }
  }

  lemma {:induction false} NothingTaken(lines: seq<string>, name: string, st: Scan)
    requires st.section == "" && !HasTable(lines, name)
    ensures Reads(lines, name, st) == []
    decreases |lines|
  {
    hide Clean, Header, TrimSpace;
    if lines != [] {
      assert !ServerHeader(lines[0], name);
      OutsideLine(lines, name, st);
      assert EntryAt(lines[0], st).None?;
      NothingTaken(lines[1..], name, st);
    }
  }

  lemma AddedHeader(more: seq<string>, name: string, st: Scan)
    requires more != [] && Header(TrimSpace(more[0])).Some? && !HasTable(more, name)
    ensures Reads(more, name, st) == []
  {
    hide Reads;
    HeaderIgnoresComment(more[0]);
    BlankTakes(more, name, st);
    assert !ServerHeader(more[0], name);
    assert Line(more, name, st) == (st.(section := ""), 1);
    NothingTaken(more[1..], name, st.(section := ""));
    ReadsStep(more, name, st);
  }

  lemma ReadsStep(lines: seq<string>, name: string, st: Scan)
    requires lines != []
    ensures Reads(lines, name, st)
         == FirstTaken(lines, st) + Reads(lines[Line(lines, name, st).1..], name, Line(lines, name, st).0)
  {
  }

  /** Tables of other servers added at the end leave the entries taken for this
      one as they were exactly when none of its arrays runs to the end. */
  lemma {:induction false} AddedScan(lines: seq<string>, more: seq<string>, name: string, st: Scan)
    requires more != [] && Header(TrimSpace(more[0])).Some? && !HasTable(more, name)
    ensures Reads(lines + more, name, st) == Reads(lines, name, st) <==> !EndsOpen(lines, name, st)
    decreases |lines|
  {
    hide Line, FirstTaken, Header, TrimSpace, HasTable, Reads;
    var all := lines + more;
    if lines == [] {
      assert all == more;
      AddedHeader(more, name, st);
      assert Reads(lines, name, st) == [] by { NoLines(name, st); }
    } else {
      var r := Line(lines, name, st);
      ReadsStep(lines, name, st);
      ReadsStep(all, name, st);
      OpenFirst(lines, name, st);
      FirstAdded(lines, more, name, st);
      if FirstTaken(all, st) == FirstTaken(lines, st) {
        assert all[r.1..] == lines[r.1..] + more;
        AddedScan(lines[r.1..], more, name, r.0);
        SameHead(FirstTaken(lines, st), Reads(all[r.1..], name, r.0), Reads(lines[r.1..], name, r.0));
      } else {
        var a, b := FirstTaken(all, st), FirstTaken(lines, st);
        assert Reads(all, name, st)[..|a|] == a && Reads(lines, name, st)[..|b|] == b;
      }
    }
  }

  lemma NoLines(name: string, st: Scan)
    ensures Reads([], name, st) == []
  {
  }

  lemma OpenFirst(lines: seq<string>, name: string, st: Scan)
    requires lines != []
    ensures var r := Line(lines, name, st);
            EndsOpen(lines, name, st) <==> (exists t | t in FirstTaken(lines, st) :: Open(t.raw)) || EndsOpen(lines[r.1..], name, r.0)
  {
    hide Line, FirstTaken;
    var r := Line(lines, name, st);
    var a, b := FirstTaken(lines, st), Reads(lines[r.1..], name, r.0);
    assert forall t :: t in a + b <==> t in a || t in b;
  }

  lemma FirstAdded(lines: seq<string>, more: seq<string>, name: string, st: Scan)
    requires lines != [] && more != [] && Header(TrimSpace(more[0])).Some?
    ensures var a, b := FirstTaken(lines + more, st), FirstTaken(lines, st);
            && |a| == |b| <= 1
            && (a == b <==> forall t | t in b :: !Open(t.raw))
            && (a == b ==> Line(lines + more, name, st) == Line(lines, name, st))
  {
    hide Clean, Header, Entry, ReadValue, ReadOn, Store, Enter;
    BlankTakes(lines, name, st);
    assert (lines + more)[1..] == lines[1..] + more;
    var e := EntryAt(lines[0], st);
    if e.Some? { ReadOnAdded(e.value.1, lines[1..], more); }
  }
}
