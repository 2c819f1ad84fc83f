/** Writing an MCP server back into Codex's config.toml and putting a moved
    server back (internal/automation/moveout.go). */
module CodexWriter {
  import opened Text
  import opened Json
  import opened CodexSyntax
  import opened CodexKeys
  import opened CodexServers

  type Cfg = map<string, Json>

  predicate AlphaNum(c: char) {
    '0' <= c <= '9' || 'a' <= c <= 'z' || 'A' <= c <= 'Z'
  }

  predicate NameChar(c: char) {
    AlphaNum(c) || c == '.' || c == '_' || c == '-'
  }

  predicate NameChars(s: string) {
    forall c | c in s :: NameChar(c)
  }

  /** nameRe (internal/automation/install.go). */
  predicate ValidName(name: string) {
    1 <= |name| <= 64 && AlphaNum(name[0]) && NameChars(name)
  }

  /** toString: a string's value, "" for anything else. */
  function ToString(v: Json): string {
    if v.Str? then v.s else ""
  }

  function StringAt(cfg: Cfg, k: string): string {
    if k in cfg then ToString(cfg[k]) else ""
  }

  function Assign(k: string, v: string): string {
    k + " = " + v
  }

  function StringLine(cfg: Cfg, k: string): seq<string> {
    var u := StringAt(cfg, k);
    if u == "" then [] else [Assign(k, Quote(u))]
  }

  function Texts(items: seq<Json>): seq<string> {
    seq(|items|, i requires 0 <= i < |items| => ToString(items[i]))
  }

  function ArrayText(args: seq<string>): string {
    "[" + Join(Quoted(args), ", ") + "]"
  }

  function ArgsLine(cfg: Cfg): seq<string> {
    if "args" in cfg && cfg["args"].Arr? && cfg["args"].items != [] then [Assign("args", ArrayText(Texts(cfg["args"].items)))]
    else []
  }

  function TableRows(ks: seq<string>, m: map<string, Json>): seq<string>
    requires forall k | k in ks :: k in m
  {
    seq(|ks|, i requires 0 <= i < |ks| => Assign(Quote(ks[i]), Quote(ToString(m[ks[i]]))))
  }

  /** The header line of a server's table or sub-table. */
  function HeaderText(dotted: string): string {
    "[" + (MCP + "." + dotted) + "]"
  }

  function TableLines(name: string, table: string, cfg: Cfg, field: string): seq<string> {
    if field in cfg && cfg[field].Obj? && cfg[field].fields != map[] then
      ["", HeaderText(name + "." + table)] + TableRows(SortKeys(cfg[field].fields.Keys), cfg[field].fields)
    else []
  }

  /** The lines written for a server, after one line end. */
  function Block(name: string, cfg: Cfg): seq<string> {
    [HeaderText(name)] + StringLine(cfg, "url") + StringLine(cfg, "command") + ArgsLine(cfg)
    + TableLines(name, "env", cfg, "env") + TableLines(name, "http_headers", cfg, "headers")
  }

  datatype Outcome = Done | BadName | Exists

  /** appendCodexServer (a file that is not there yet reads like an empty one):
      its error and the file's text afterwards. */
  function Append(raw: string, name: string, cfg: Cfg, env: map<string, string>): (Outcome, string) {
    if !ValidName(name) then (BadName, raw)
    else if Server(raw, name, env).Some? then (Exists, raw)
    else (Done, raw + "\n" + Terminated(Block(name, cfg)))
  }

  /** encoding/json of a config the reader returned: an array without items is
      a nil slice there, so it comes out null. */
  function Marshalled(v: Json): Json {
    match v
    case Arr(items) => if items == [] then Null else Arr(seq(|items|, i requires 0 <= i < |items| => Marshalled(items[i])))
    case Obj(fields) => Obj(map k | k in fields :: Marshalled(fields[k]))
    case _ => v
  }

  /** PutBackMCP for a server that came from Codex. */
  function PutBack(raw: string, name: string, cfg: Cfg, env: map<string, string>): (Outcome, string) {
    match Server(raw, name, env)
    case Some(existing) => if Marshalled(Obj(existing)) == Obj(cfg) then (Done, raw) else (Exists, raw)
    case None => Append(raw, name, cfg, env)
  }

  // ---- names ----

  lemma {:induction false} KeysTotal(inner: string, keys: seq<string>)
    requires forall c | c in inner :: c !in QUOTES
    ensures Keys(inner, keys).Some? && keys <= Keys(inner, keys).value
    decreases |inner|
  {
    var cut := {' ', '\t', '.'};
    var t := TrimLeft(inner, cut);
    TrimLeftSuffix(inner, cut);
    if t != "" {
      assert t[0] in t;
      var i := IndexOf(t, '.');
      KeysTotal(if i < |t| then t[i + 1..] else "", keys + [TrimSpace(t[..i])]);
    }
  }

  lemma {:induction false} TrimLeftSuffix(s: string, cut: set<char>)
    ensures TrimLeft(s, cut) == s[|s| - |TrimLeft(s, cut)|..]
  {
    if s != [] && s[0] in cut {
      TrimLeftSuffix(s[1..], cut);
    }
  }

  /** The first dot ends a bare key. */
  lemma BareKey(k: string, rest: string, keys: seq<string>)
    requires k != "" && '.' !in k && k[0] !in QUOTES && k[0] != '\t' && Bounded(k, SPACES)
    ensures Keys(k + "." + rest, keys) == Keys(rest, keys + [k])
    ensures Keys(k, keys) == Some(keys + [k])
  {
    TrimKeeps(k, SPACES);
    IndexAt(k, '.', rest);
    IndexAbsent(k, '.');
    var s := k + "." + rest;
    assert s == k + ['.'] + rest;
    assert s[..|k|] == k && s[|k| + 1..] == rest && k[..|k|] == k;
  }

  lemma HeaderClean(dotted: string)
    requires NameChars(dotted)
    ensures var line := "[" + dotted + "]"; Clean(line) == line && '#' !in line && OneLine(line) && TrimSpace(line) == line
  {
    hide Kept, TrimLeft, TrimRight;
    var line := "[" + dotted + "]";
    assert forall c | c in line :: c == '[' || c == ']' || c in dotted;
    KeptPlain(line, "");
    assert line + "" == line && line[..|line|] == line;
    TrimKeeps(line, SPACES);
  }

  /** A header line is read as it was written. */
  lemma HeaderLine(dotted: string)
    requires NameChars(dotted)
    ensures var line := "[" + dotted + "]";
            Clean(line) == line && Header(line) == Keys(dotted, []) && OneLine(line)
  {
    hide Keys, Clean, TrimSpace, OneLine;
    var line := "[" + dotted + "]";
    HeaderClean(dotted);
    IndexAbsent(line, '#');
    assert line[..|line|] == line;
    assert line[..|line| - 1] == "[" + dotted && ("[" + dotted)[1..] == dotted;
    assert dotted != "" ==> dotted[0] in dotted;
    assert line[1] == if dotted == "" then ']' else dotted[0];
  }

  lemma NameCharsJoin(a: string, b: string)
    requires NameChars(a) && NameChars(b)
    ensures NameChars(a + b)
  {
  }

  lemma NameCharsPart(a: string, i: nat)
    requires NameChars(a) && i <= |a|
    ensures NameChars(a[..i])
  {
  }

  lemma PlainKey(k: string, rest: string, keys: seq<string>)
    requires k != "" && '.' !in k && NameChars(k)
    ensures Keys(k + "." + rest, keys) == Keys(rest, keys + [k])
    ensures Keys(k, keys) == Some(keys + [k])
  {
    assert k[0] in k && k[|k| - 1] in k;
    BareKey(k, rest, keys);
  }

  lemma McpPlain()
    ensures NameChars(MCP) && '.' !in MCP && MCP != ""
  {
  }

  lemma TablePlain(table: string)
    requires table == "env" || table == "http_headers"
    ensures NameChars(table) && '.' !in table && table !in {"", ".", "-"}
  {
  }

  /** A header line of the server (or of a sub-table of it). */
  lemma ServerLine(dotted: string)
    requires NameChars(dotted)
    ensures var line := HeaderText(dotted);
            Clean(line) == line && Header(line) == Keys(dotted, [MCP]) && OneLine(line)
  {
    McpPlain();
    NameCharsJoin(MCP, ".");
    NameCharsJoin(MCP + ".", dotted);
    HeaderLine(MCP + "." + dotted);
    PlainKey(MCP, dotted, []);
    assert [] + [MCP] == [MCP];
  }

  function Stem(name: string): string {
    Before(name, '.')
  }

  /** Of a dotted name the header's second key is only what stands before the dot. */
  lemma DottedName(name: string, rest: string)
    requires ValidName(name) && '.' in name && NameChars(rest)
    ensures var h := Keys(name + rest, [MCP]);
            h.Some? && |h.value| >= 2 && h.value[0] == "mcp_servers" && h.value[1] == Stem(name)
    ensures Stem(name) != name
  {
    var i := IndexOf(name, '.');
    assert name[..|name|] == name;
    assert 0 < i < |name|;
    var k, tail := name[..i], name[i + 1..] + rest;
    assert name + rest == k + "." + tail;
    NameCharsPart(name, i);
    PlainKey(k, tail, [MCP]);
    assert NameChars(tail) by { assert forall c | c in tail :: c in name || c in rest; }
    KeysTotal(tail, [MCP] + [k]);
  }

  // ---- entries ----

  /** A "K = V" line is cut where it was joined. */
  lemma AssignRead(k: string, v: string)
    requires k != "" && '=' !in k && k[0] != '[' && Bounded(k, SPACES)
    requires v != "" && Bounded(v, SPACES) && Kept(Assign(k, v), NUL) == |Assign(k, v)|
    ensures var line := Assign(k, v);
            Clean(line) == line && line != "" && Header(line).None? && Entry(line) == Some((Trim(k, QUOTES), v))
  {
    hide Kept, Entry;
    var line := Assign(k, v);
    assert line[..|line|] == line && line[0] == k[0] && line[|line| - 1] == v[|v| - 1];
    TrimKeeps(line, SPACES);
    CutRead(k, v);
  }

  lemma CutRead(k: string, v: string)
    requires k != "" && '=' !in k && Bounded(k, SPACES) && v != "" && Bounded(v, SPACES)
    ensures Entry(Assign(k, v)) == Some((Trim(k, QUOTES), v))
  {
    hide IndexOf, TrimSpace, Trim;
    var line := Assign(k, v);
    IndexAt(k + " ", '=', " " + v);
    assert line == (k + " ") + ['='] + (" " + v);
    assert line[..|k| + 1] == k + " " && line[|k| + 2..] == " " + v;
    TrimSides(k, v);
  }

  lemma TrimSides(k: string, v: string)
    requires k != "" && Bounded(k, SPACES) && v != "" && Bounded(v, SPACES)
    ensures TrimSpace(k + " ") == k && TrimSpace(" " + v) == v
  {
    assert (k + " ")[..|k|] == k && TrimRight(k + " ", SPACES) == TrimRight(k, SPACES);
    TrimKeeps(k, SPACES);
    assert TrimLeft(k + " ", SPACES) == k + " ";
    assert (" " + v)[1..] == v;
    TrimKeeps(v, SPACES);
  }

  /** The scan after such a line, inside the server. */
  lemma AssignLine(k: string, v: string, rest: seq<string>, name: string, st: Scan)
    requires k != "" && '=' !in k && k[0] != '[' && Bounded(k, SPACES)
    requires v != "" && Bounded(v, SPACES) && Kept(Assign(k, v), NUL) == |Assign(k, v)|
    requires st.section != "" && st.section != "-" && !Open(v)
    ensures Read([Assign(k, v)] + rest, name, st) == Read(rest, name, Store(st, Trim(k, QUOTES), ReadValue(v)))
  {
    AssignRead(k, v);
    var lines := [Assign(k, v)] + rest;
    assert lines[1..] == rest;
    assert Line(lines, name, st) == (Store(st, Trim(k, QUOTES), ReadValue(v)), 1);
  }

  lemma BlankLine(rest: seq<string>, name: string, st: Scan)
    ensures Read([""] + rest, name, st) == Read(rest, name, st)
  {
    assert ([""] + rest)[1..] == rest && Clean("") == "";
    assert Line([""] + rest, name, st) == (st, 1);
  }

  lemma ReadQuoted(u: string)
    ensures ReadValue(Quote(u)) == Some(Str(u))
    ensures Bounded(Quote(u), SPACES) && !Open(Quote(u)) && Kept(Quote(u), NUL) == |Quote(u)|
  {
    TrimKeeps(Quote(u), SPACES);
    assert Quote(u) + "" == Quote(u);
    QuoteRead(u, "");
    KeptQuote(u, "");
  }

  /** A word written before " = ". */
  predicate Word(k: string) {
    k == "url" || k == "command" || k == "args"
  }

  lemma WordKept(k: string, v: string)
    requires Word(k)
    ensures Kept(Assign(k, v), NUL) == |k| + 3 + Kept(v, NUL) && |Assign(k, v)| == |k| + 3 + |v|
    ensures k != "" && '=' !in k && k[0] != '[' && Bounded(k, SPACES) && Trim(k, QUOTES) == k
  {
    hide Kept;
    WordShape(k);
    KeptPlain(k + " = ", v);
    TrimKeeps(k, QUOTES);
  }

  lemma WordShape(k: string)
    requires Word(k)
    ensures k != "" && k[0] != '[' && Bounded(k, SPACES) && Bounded(k, QUOTES)
    ensures forall c | c in k :: c !in {'=', '"', '\'', '#'}
  {
  }

  lemma StringLineRead(k: string, u: string, rest: seq<string>, name: string, st: Scan)
    requires Word(k) && st.section == "."
    ensures Read([Assign(k, Quote(u))] + rest, name, st) == Read(rest, name, st.(out := st.out[k := Str(u)]))
  {
    ReadQuoted(u);
    WordKept(k, Quote(u));
    AssignLine(k, Quote(u), rest, name, st);
  }

  // ---- arrays ----

  lemma ReadFirstItem(u: string, s: string, out: seq<Json>)
    requires s == "" || s[|s| - 1] !in SPACES
    ensures ReadItems(Quote(u) + s, out) == ReadItems(s, out + [Str(u)])
  {
    QuoteRead(u, s);
    var cut := {' ', '\t', '\r', '\n', ','};
    assert TrimLeft(Quote(u) + s, cut) == Quote(u) + s;
  }

  lemma SkipSeparator(s: string, out: seq<Json>)
    requires s == "" || s[0] !in {' ', '\t', '\r', '\n', ','}
    ensures ReadItems(", " + s, out) == ReadItems(s, out)
  {
    var cut := {' ', '\t', '\r', '\n', ','};
    assert (", " + s)[1..] == " " + s && (" " + s)[1..] == s;
    assert TrimLeft(", " + s, cut) == TrimLeft(" " + s, cut) == TrimLeft(s, cut) == s;
  }

  /** The items and the closing bracket. */
  function Items(args: seq<string>): string {
    Join(Quoted(args), ", ") + "]"
  }

  lemma ItemsCons(args: seq<string>)
    requires args != []
    ensures Items(args) == Quote(args[0]) + if |args| == 1 then "]" else ", " + Items(args[1..])
  {
    assert Quoted(args)[1..] == Quoted(args[1..]);
  }

  lemma ItemsStart(args: seq<string>)
    requires args != []
    ensures Items(args)[0] == '"'
  {
    ItemsCons(args);
  }

  lemma ItemsEnd(out: seq<Json>)
    ensures ReadItems(Items([]), out) == Some(Arr(out))
  {
    assert Items([]) == "]";
  }

  lemma ItemsStep(args: seq<string>, out: seq<Json>)
    requires args != []
    ensures ReadItems(Items(args), out) == ReadItems(Items(args[1..]), out + [Str(args[0])])
  {
    var u, more := args[0], args[1..];
    ItemsCons(args);
    if more == [] {
      ReadFirstItem(u, "]", out);
      assert Items(more) == "]";
    } else {
      ReadFirstItem(u, ", " + Items(more), out);
      ItemsStart(more);
      SkipSeparator(Items(more), out + [Str(u)]);
    }
  }

  lemma {:induction false} ItemsRead(args: seq<string>, out: seq<Json>)
    ensures ReadItems(Items(args), out) == Some(Arr(out + Strs(args)))
  {
    hide Items, ReadItems;
    if args == [] {
      assert out + Strs(args) == out;
      ItemsEnd(out);
    } else {
      ItemsStep(args, out);
      ItemsRead(args[1..], out + [Str(args[0])]);
      assert out + [Str(args[0])] + Strs(args[1..]) == out + Strs(args);
    }
  }

  lemma NoItems()
    ensures Items([]) == "]" && Kept("]", NUL) == 1
  {
  }

  lemma {:induction false} ItemsKept(args: seq<string>)
    ensures Kept(Items(args), NUL) == |Items(args)|
    ensures OneLine(Items(args))
  {
    hide Kept, Items, Quote;
    if args == [] {
      NoItems();
    } else {
      var u, more := args[0], args[1..];
      ItemsCons(args);
      ItemsKept(more);
      QuoteOneLine(u);
      if more == [] {
        NoItems();
        KeptQuote(u, "]");
      } else {
        KeptQuote(u, ", " + Items(more));
        KeptPlain(", ", Items(more));
      }
    }
  }

  lemma BracketedValue(items: string)
    requires items != "" && items[|items| - 1] == ']'
    ensures var v := "[" + items; Bounded(v, SPACES) && !Open(v) && ReadValue(v) == ReadItems(items, [])
  {
    hide ReadItems, ReadFields, ReadString, TrimLeft, TrimRight;
    var v := "[" + items;
    TrimKeeps(v, SPACES);
    assert v[0] == '[' && v[1..] == items && v[|v| - 1] == ']' && v[|v| - 1] in v;
  }

  lemma ArrayLineRead(args: seq<string>, rest: seq<string>, name: string, st: Scan)
    requires st.section == "."
    ensures Read([Assign("args", ArrayText(args))] + rest, name, st)
         == Read(rest, name, st.(out := st.out["args" := Arr(Strs(args))]))
  {
    hide Read, ReadItems, Kept, ReadValue;
    var v := ArrayText(args);
    assert v == "[" + Items(args);
    ItemsRead(args, []);
    ItemsKept(args);
    KeptPlain("[", Items(args));
    WordKept("args", v);
    BracketedValue(Items(args));
    assert [] + Strs(args) == Strs(args);
    AssignLine("args", v, rest, name, st);
  }

  // ---- keys of a table ----

  /** A row whose key has no '=' adds an entry to the table. */
  lemma RowRead(k: string, u: string, rest: seq<string>, name: string, st: Scan)
    requires '=' !in k && st.section != "" && st.section != "-"
    ensures Read([Assign(Quote(k), Quote(u))] + rest, name, st) == Read(rest, name, Store(st, RowKey(k), Some(Str(u))))
  {
    hide Escape, Kept, Read, ReadValue, Trim;
    var q := Quote(k);
    EscapeHasEqual(k);
    ReadQuoted(k);
    ReadQuoted(u);
    RowKept(k, u);
    AssignLine(q, Quote(u), rest, name, st);
  }

  lemma RowKept(k: string, u: string)
    ensures Kept(Assign(Quote(k), Quote(u)), NUL) == |Assign(Quote(k), Quote(u))|
  {
    hide Kept, Quote, ReadValue;
    KeptQuote(k, " = " + Quote(u));
    KeptPlain(" = ", Quote(u));
    ReadQuoted(u);
    assert Assign(Quote(k), Quote(u)) == Quote(k) + (" = " + Quote(u));
  }

  // ---- tables ----

  function Filled(st: Scan, ks: seq<string>, m: map<string, Json>): Scan
    requires forall k | k in ks :: k in m
    decreases |ks|
  {
    if ks == [] then st else Filled(Store(st, RowKey(ks[0]), Some(Str(ToString(m[ks[0]])))), ks[1..], m)
  }

  lemma {:induction false} RowsRead(ks: seq<string>, m: map<string, Json>, rest: seq<string>, name: string, st: Scan)
    requires EqualFree(m) && forall k | k in ks :: k in m
    requires st.section != "" && st.section != "-"
    ensures Read(TableRows(ks, m) + rest, name, st) == Read(rest, name, Filled(st, ks, m))
  {
    hide Read, Assign, Quote, RowKey;
    if ks == [] {
      assert TableRows(ks, m) + rest == rest;
    } else {
      var k, more := ks[0], TableRows(ks[1..], m) + rest;
      assert TableRows(ks, m) + rest == [Assign(Quote(k), Quote(ToString(m[k])))] + more;
      RowRead(k, ToString(m[k]), more, name, st);
      RowsRead(ks[1..], m, rest, name, Store(st, RowKey(k), Some(Str(ToString(m[k])))));
    }
  }

  /** The entries the rows leave in a table that held `had`. */
  function Gathered(had: map<string, Json>, ks: seq<string>, m: map<string, Json>): map<string, Json>
    requires forall k | k in ks :: k in m
    decreases |ks|
  {
    if ks == [] then had else Gathered(had[RowKey(ks[0]) := Str(ToString(m[ks[0]]))], ks[1..], m)
  }

  /** What a table is read back as. */
  function Rows(m: map<string, Json>): map<string, Json> {
    Gathered(map[], SortKeys(m.Keys), m)
  }

  lemma {:induction false} FilledTable(st: Scan, ks: seq<string>, m: map<string, Json>, had: map<string, Json>)
    requires forall k | k in ks :: k in m
    requires st.section != "." && st.section in st.out && st.out[st.section] == Obj(had)
    ensures Filled(st, ks, m) == st.(out := st.out[st.section := Obj(Gathered(had, ks, m))])
    decreases |ks|
  {
    hide RowKey;
    if ks == [] {
      assert st.out[st.section := Obj(had)] == st.out;
    } else {
      var had' := had[RowKey(ks[0]) := Str(ToString(m[ks[0]]))];
      var st' := Store(st, RowKey(ks[0]), Some(Str(ToString(m[ks[0]]))));
      FilledTable(st', ks[1..], m, had');
      assert st'.out[st.section := Obj(Gathered(had', ks[1..], m))] == st.out[st.section := Obj(Gathered(had', ks[1..], m))];
    }
  }

  lemma SomeKey(m: map<string, Json>)
    requires m != map[]
    ensures SortKeys(m.Keys) != []
  {
    hide SortKeys;
    assert exists k :: k in m.Keys;
  }

  /** All rows of a new table. */
  lemma WholeTable(st: Scan, m: map<string, Json>)
    requires st.section != "." && st.section !in st.out && m != map[]
    ensures Filled(st, SortKeys(m.Keys), m) == st.(out := st.out[st.section := Obj(Rows(m))])
  {
    hide SortKeys, RowKey;
    SomeKey(m);
    var ks := SortKeys(m.Keys);
    var had := map[][RowKey(ks[0]) := Str(ToString(m[ks[0]]))];
    var st' := Store(st, RowKey(ks[0]), Some(Str(ToString(m[ks[0]]))));
    FilledTable(st', ks[1..], m, had);
    assert st'.out[st.section := Obj(Rows(m))] == st.out[st.section := Obj(Rows(m))];
  }

  /** Some row with a key of ks is read back under the key x. */
  predicate ReturnedOf(x: string, ks: seq<string>) {
    exists k | k in ks :: x == RowKey(k)
  }

  lemma ReturnedCons(x: string, ks: seq<string>)
    requires ks != []
    ensures ReturnedOf(x, ks) <==> x == RowKey(ks[0]) || ReturnedOf(x, ks[1..])
  {
    hide RowKey;
    assert ks == [ks[0]] + ks[1..];
  }

  lemma {:induction false} GatheredKeys(had: map<string, Json>, ks: seq<string>, m: map<string, Json>, x: string)
    requires forall k | k in ks :: k in m
    ensures x in Gathered(had, ks, m) <==> x in had || ReturnedOf(x, ks)
    ensures x in Gathered(had, ks, m) ==> Gathered(had, ks, m)[x].Str? || (x in had && Gathered(had, ks, m)[x] == had[x])
    decreases |ks|
  {
    hide RowKey, ReturnedOf;
    if ks != [] {
      GatheredKeys(had[RowKey(ks[0]) := Str(ToString(m[ks[0]]))], ks[1..], m, x);
      ReturnedCons(x, ks);
    } else {
      NoneReturned(x);
    }
  }

  lemma NoneReturned(x: string)
    ensures !ReturnedOf(x, [])
  {
  }

  lemma {:induction false} GatheredPlain(had: map<string, Json>, ks: seq<string>, m: map<string, Json>)
    requires forall k | k in ks :: k in m && RowKey(k) == k && m[k].Str?
    requires forall x | x in had :: x in m && had[x] == m[x]
    ensures forall x | x in Gathered(had, ks, m) :: x in m && Gathered(had, ks, m)[x] == m[x]
    decreases |ks|
  {
    hide RowKey;
    if ks != [] {
      GatheredPlain(had[ks[0] := m[ks[0]]], ks[1..], m);
    }
  }

  lemma RowsKeys(m: map<string, Json>)
    ensures forall x :: x in Rows(m) <==> Returned(x, m)
    ensures forall x | x in Rows(m) :: Rows(m)[x].Str?
  {
    hide RowKey, Gathered, SortKeys;
    var ks := SortKeys(m.Keys);
    forall x ensures x in Rows(m) <==> Returned(x, m)
             ensures x in Rows(m) ==> Rows(m)[x].Str?
    {
      GatheredKeys(map[], ks, m, x);
      assert ReturnedOf(x, ks) <==> Returned(x, m);
    }
  }

  lemma HeaderRead(dotted: string, rest: seq<string>, name: string, st: Scan)
    requires NameChars(dotted) && Keys(dotted, [MCP]).Some?
    ensures Read([HeaderText(dotted)] + rest, name, st) == Read(rest, name, Enter(st, Keys(dotted, [MCP]).value, name))
  {
    ServerLine(dotted);
    var lines := [HeaderText(dotted)] + rest;
    assert lines[1..] == rest;
    assert Line(lines, name, st) == (Enter(st, Keys(dotted, [MCP]).value, name), 1);
  }

  lemma SubTableKeys(name: string, table: string)
    requires ValidName(name) && '.' !in name && (table == "env" || table == "http_headers")
    ensures NameChars(name + "." + table) && Keys(name + "." + table, [MCP]) == Some([MCP, name, table])
  {
    TablePlain(table);
    NameCharsJoin(name, ".");
    NameCharsJoin(name + ".", table);
    PlainKey(name, table, [MCP]);
    PlainKey(table, "", [MCP] + [name]);
    assert [MCP] + [name] + [table] == [MCP, name, table];
  }

  predicate StringTable(v: Json) {
    v.Obj? && forall k | k in v.fields :: v.fields[k].Str?
  }

  /** The writer makes a table of the member. */
  predicate Tabled(cfg: Cfg, field: string) {
    field in cfg && cfg[field].Obj? && cfg[field].fields != map[]
  }

  predicate EqualFreeTable(cfg: Cfg, field: string) {
    Tabled(cfg, field) ==> EqualFree(cfg[field].fields)
  }

  function WithTable(st: Scan, table: string, cfg: Cfg, field: string): Scan {
    if Tabled(cfg, field) then Scan(table, true, st.out[table := Obj(Rows(cfg[field].fields))]) else st
  }

  /** The rows of a new table, in the writer's order. */
  lemma RowsOfTable(name: string, m: map<string, Json>, rest: seq<string>, inside: Scan)
    requires inside.section !in {"", ".", "-"} && inside.section !in inside.out && m != map[] && EqualFree(m)
    ensures Read(TableRows(SortKeys(m.Keys), m) + rest, name, inside)
         == Read(rest, name, inside.(out := inside.out[inside.section := Obj(Rows(m))]))
  {
    hide SortKeys, TableRows, Rows;
    RowsRead(SortKeys(m.Keys), m, rest, name, inside);
    WholeTable(inside, m);
  }

  /** A table's rows come back as its entries exactly when every value is a
      string and every key plain. */
  lemma RowsExact(m: map<string, Json>)
    requires EqualFree(m)
    ensures Rows(m) == m <==> forall k | k in m :: KeyOk(k) && m[k].Str?
  {
    hide RowKey, KeyOk, Rows, Returned;
    if Rows(m) == m {
      RowsKeys(m);
      KeysReturn(m);
    }
    if forall k | k in m :: KeyOk(k) && m[k].Str? {
      PlainRows(m);
    }
  }

  lemma IsReturned(k: string, m: map<string, Json>)
    requires k in m
    ensures Returned(RowKey(k), m)
  {
    hide RowKey;
  }

  lemma PlainRows(m: map<string, Json>)
    requires forall k | k in m :: KeyOk(k) && m[k].Str?
    ensures Rows(m) == m
  {
    hide RowKey, KeyOk, SortKeys, Gathered, Returned;
    RowsKeys(m);
    forall k | k in m ensures RowKey(k) == k && k in Rows(m) {
      KeyReturns(k);
      IsReturned(k, m);
    }
    GatheredPlain(map[], SortKeys(m.Keys), m);
  }

  lemma TableStart(name: string, table: string, rest: seq<string>, st: Scan)
    requires ValidName(name) && '.' !in name && (table == "env" || table == "http_headers") && st.found
    ensures Read([""] + ([HeaderText(name + "." + table)] + rest), name, st) == Read(rest, name, st.(section := table))
  {
    hide Read, Keys, HeaderText, ValidName, NameChars;
    BlankLine([HeaderText(name + "." + table)] + rest, name, st);
    SubTableKeys(name, table);
    HeaderRead(name + "." + table, rest, name, st);
    EnterTable(name, table, st);
  }

  lemma EnterTable(name: string, table: string, st: Scan)
    requires st.found
    ensures Enter(st, [MCP, name, table], name) == st.(section := table)
  {
  }

  lemma TableRead(name: string, table: string, cfg: Cfg, field: string, rest: seq<string>, st: Scan)
    requires ValidName(name) && '.' !in name && (table == "env" || table == "http_headers")
    requires EqualFreeTable(cfg, field) && st.found && table !in st.out
    ensures Read(TableLines(name, table, cfg, field) + rest, name, st) == Read(rest, name, WithTable(st, table, cfg, field))
  {
    hide Read, Rows, ValidName, EqualFree, TableRows, SortKeys, HeaderText;
    if Tabled(cfg, field) {
      TablePresent(name, table, cfg[field].fields, rest, st);
      var rows := TableRows(SortKeys(cfg[field].fields.Keys), cfg[field].fields);
      assert TableLines(name, table, cfg, field) + rest == [""] + ([HeaderText(name + "." + table)] + (rows + rest));
    } else {
      assert TableLines(name, table, cfg, field) + rest == rest;
    }
  }

  lemma TablePresent(name: string, table: string, m: map<string, Json>, rest: seq<string>, st: Scan)
    requires ValidName(name) && '.' !in name && (table == "env" || table == "http_headers")
    requires m != map[] && EqualFree(m) && st.found && table !in st.out
    ensures Read([""] + ([HeaderText(name + "." + table)] + (TableRows(SortKeys(m.Keys), m) + rest)), name, st)
         == Read(rest, name, Scan(table, true, st.out[table := Obj(Rows(m))]))
  {
    hide Read, Rows, ValidName, EqualFree, TableRows, SortKeys, HeaderText;
    TablePlain(table);
    TableStart(name, table, TableRows(SortKeys(m.Keys), m) + rest, st);
    RowsOfTable(name, m, rest, st.(section := table));
  }

  // ---- main results on writing ----

  predicate TableOk(cfg: Cfg, field: string) {
    field in cfg ==> StringTable(cfg[field]) && cfg[field].fields != map[] && forall k | k in cfg[field].fields :: KeyOk(k)
  }

  /** A config as the reader returns one: url and command not empty, args, env
      and headers absent or not empty, table keys that survive the writer. */
  predicate Plain(cfg: Cfg) {
    && cfg.Keys <= {"command", "args", "env", "url", "headers", "type"}
    && ("url" in cfg ==> cfg["url"].Str? && cfg["url"].s != "")
    && ("command" in cfg ==> cfg["command"].Str? && cfg["command"].s != "")
    && ("args" in cfg ==> cfg["args"].Arr? && cfg["args"].items != [] && forall x | x in cfg["args"].items :: x.Str?)
    && TableOk(cfg, "env") && TableOk(cfg, "headers")
    && ("type" in cfg <==> "url" in cfg) && ("type" in cfg ==> cfg["type"] == Str("http"))
  }

  function With(out: map<string, Json>, cfg: Cfg, k: string): map<string, Json> {
    if StringAt(cfg, k) == "" then out else out[k := Str(StringAt(cfg, k))]
  }

  function WithArgs(out: map<string, Json>, cfg: Cfg): map<string, Json> {
    if ArgsLine(cfg) == [] then out else out["args" := Arr(Strs(Texts(cfg["args"].items)))]
  }

  lemma StringMemberRead(k: string, cfg: Cfg, rest: seq<string>, name: string, st: Scan)
    requires Word(k) && st.section == "."
    ensures Read(StringLine(cfg, k) + rest, name, st) == Read(rest, name, st.(out := With(st.out, cfg, k)))
  {
    if StringAt(cfg, k) == "" {
      assert StringLine(cfg, k) + rest == rest;
    } else {
      StringLineRead(k, StringAt(cfg, k), rest, name, st);
    }
  }

  lemma ArgsRead(cfg: Cfg, rest: seq<string>, name: string, st: Scan)
    requires st.section == "."
    ensures Read(ArgsLine(cfg) + rest, name, st) == Read(rest, name, st.(out := WithArgs(st.out, cfg)))
  {
    hide Read, ArrayText;
    if ArgsLine(cfg) == [] {
      assert ArgsLine(cfg) + rest == rest;
    } else {
      ArrayLineRead(Texts(cfg["args"].items), rest, name, st);
    }
  }

  function OwnOut(cfg: Cfg): map<string, Json> {
    WithArgs(With(With(map[], cfg, "url"), cfg, "command"), cfg)
  }

  lemma Regroup(h: seq<string>, u: seq<string>, c: seq<string>, a: seq<string>, e: seq<string>, t: seq<string>, z: seq<string>)
    ensures h + u + c + a + e + t + z == h + (u + (c + (a + (e + (t + z)))))
  {
  }

  lemma OwnRead(name: string, cfg: Cfg, rest: seq<string>)
    ensures Read(StringLine(cfg, "url") + (StringLine(cfg, "command") + (ArgsLine(cfg) + rest)), name, Scan(".", true, map[]))
         == Read(rest, name, Scan(".", true, OwnOut(cfg)))
  {
    hide Read, StringLine, ArgsLine, With, WithArgs;
    var c := ArgsLine(cfg) + rest;
    var s0 := Scan(".", true, map[]);
    StringMemberRead("url", cfg, StringLine(cfg, "command") + c, name, s0);
    var s1 := s0.(out := With(s0.out, cfg, "url"));
    StringMemberRead("command", cfg, c, name, s1);
    ArgsRead(cfg, rest, name, s1.(out := With(s1.out, cfg, "command")));
  }

  lemma OwnOutKeys(cfg: Cfg)
    ensures OwnOut(cfg).Keys <= {"url", "command", "args"}
  {
  }

  lemma TablesRead(name: string, cfg: Cfg, st: Scan)
    requires ValidName(name) && '.' !in name && st.found && "env" !in st.out && "http_headers" !in st.out
    requires EqualFreeTable(cfg, "env") && EqualFreeTable(cfg, "headers")
    ensures Read(TableLines(name, "env", cfg, "env") + (TableLines(name, "http_headers", cfg, "headers") + [""]), name, st)
         == WithTable(WithTable(st, "env", cfg, "env"), "http_headers", cfg, "headers")
  {
    hide TableLines, Rows, ValidName;
    var st' := WithTable(st, "env", cfg, "env");
    TableRead(name, "env", cfg, "env", TableLines(name, "http_headers", cfg, "headers") + [""], st);
    TableRead(name, "http_headers", cfg, "headers", [""], st');
    var st'' := WithTable(st', "http_headers", cfg, "headers");
    assert [""] + [] == [""];
    BlankLine([], name, st'');
  }

  /** The block's own table, read from the line after the file's old text. */
  lemma BlockStart(name: string, cfg: Cfg)
    requires ValidName(name) && '.' !in name
    ensures Read(Block(name, cfg) + [""], name, START)
         == Read(TableLines(name, "env", cfg, "env") + (TableLines(name, "http_headers", cfg, "headers") + [""]),
                 name, Scan(".", true, OwnOut(cfg)))
  {
    hide Read, Keys, StringLine, ArgsLine, TableLines, OwnOut, Enter;
    var tables := TableLines(name, "env", cfg, "env") + (TableLines(name, "http_headers", cfg, "headers") + [""]);
    var own := StringLine(cfg, "url") + (StringLine(cfg, "command") + (ArgsLine(cfg) + tables));
    Regroup([HeaderText(name)], StringLine(cfg, "url"), StringLine(cfg, "command"), ArgsLine(cfg),
            TableLines(name, "env", cfg, "env"), TableLines(name, "http_headers", cfg, "headers"), [""]);
    PlainKey(name, "", [MCP]);
    assert [MCP] + [name] == [MCP, name];
    HeaderRead(name, own, name, START);
    EnterOwn(name);
    OwnRead(name, cfg, tables);
  }

  lemma EnterOwn(name: string)
    ensures Enter(START, [MCP, name], name) == Scan(".", true, map[])
  {
  }

  /** The whole block. */
  lemma BlockRead(name: string, cfg: Cfg)
    requires ValidName(name) && '.' !in name && EqualFreeTable(cfg, "env") && EqualFreeTable(cfg, "headers")
    ensures Read(Block(name, cfg) + [""], name, START)
         == WithTable(WithTable(Scan(".", true, OwnOut(cfg)), "env", cfg, "env"), "http_headers", cfg, "headers")
  {
    hide Read, Block, TableLines, OwnOut, WithTable;
    BlockStart(name, cfg);
    OwnOutKeys(cfg);
    TablesRead(name, cfg, Scan(".", true, OwnOut(cfg)));
  }

  // ---- the lines written, one by one ----

  /** One line, and a header only of the table the name's stem stands for. */
  predicate Written(line: string, name: string) {
    var h := Header(TrimSpace(line));
    OneLine(line) && (h.Some? ==> |h.value| >= 2 && h.value[0] == MCP && h.value[1] == Stem(name))
  }

  lemma NotHeader(line: string)
    requires line != "" ==> line[0] !in SPACES && line[0] != '['
    ensures Header(TrimSpace(line)).None?
  {
    if line != "" { FirstKept(line); }
  }

  lemma AssignWritten(k: string, v: string, name: string)
    requires k != "" && k[0] !in SPACES && k[0] != '[' && OneLine(k) && OneLine(v)
    ensures Written(Assign(k, v), name)
  {
    NotHeader(Assign(k, v));
  }

  lemma StemPlain(name: string)
    requires '.' !in name
    ensures Stem(name) == name
  {
    IndexAbsent(name, '.');
    assert name[..|name|] == name;
  }

  lemma HeaderIsWritten(dotted: string, name: string)
    requires NameChars(dotted)
    requires var h := Keys(dotted, [MCP]); h.Some? && |h.value| >= 2 && h.value[0] == MCP && h.value[1] == Stem(name)
    ensures Written(HeaderText(dotted), name) && Header(TrimSpace(HeaderText(dotted))).Some?
  {
    ServerLine(dotted);
    HeaderIgnoresComment(HeaderText(dotted));
  }

  lemma OwnHeaderWritten(name: string)
    requires ValidName(name)
    ensures Written(HeaderText(name), name) && Header(TrimSpace(HeaderText(name))).Some?
  {
    if '.' in name {
      DottedName(name, "");
      assert name + "" == name;
    } else {
      StemPlain(name);
      PlainKey(name, "", [MCP]);
    }
    HeaderIsWritten(name, name);
  }

  lemma SubHeaderWritten(name: string, table: string)
    requires ValidName(name) && (table == "env" || table == "http_headers")
    ensures Written(HeaderText(name + "." + table), name)
  {
    TablePlain(table);
    NameCharsJoin(".", table);
    NameCharsJoin(name, "." + table);
    assert name + ("." + table) == name + "." + table;
    if '.' in name {
      DottedName(name, "." + table);
    } else {
      StemPlain(name);
      SubTableKeys(name, table);
    }
    HeaderIsWritten(name + "." + table, name);
  }

  ghost predicate AllWritten(ls: seq<string>, name: string) {
    forall l | l in ls :: Written(l, name)
  }

  lemma AllJoin(a: seq<string>, b: seq<string>, name: string)
    requires AllWritten(a, name) && AllWritten(b, name)
    ensures AllWritten(a + b, name)
  {
  }

  lemma RowsWritten(ks: seq<string>, m: map<string, Json>, name: string)
    requires forall k | k in ks :: k in m
    ensures AllWritten(TableRows(ks, m), name)
  {
    forall i | 0 <= i < |ks| ensures Written(TableRows(ks, m)[i], name) {
      QuoteOneLine(ks[i]);
      QuoteOneLine(ToString(m[ks[i]]));
      AssignWritten(Quote(ks[i]), Quote(ToString(m[ks[i]])), name);
    }
  }

  lemma TableWritten(name: string, table: string, cfg: Cfg, field: string)
    requires ValidName(name) && (table == "env" || table == "http_headers")
    ensures AllWritten(TableLines(name, table, cfg, field), name)
  {
    if TableLines(name, table, cfg, field) != [] {
      NotHeader("");
      SubHeaderWritten(name, table);
      var ks, m := SortKeys(cfg[field].fields.Keys), cfg[field].fields;
      RowsWritten(ks, m, name);
      AllJoin(["", HeaderText(name + "." + table)], TableRows(ks, m), name);
    }
  }

  lemma StringWritten(name: string, cfg: Cfg, k: string)
    requires Word(k)
    ensures AllWritten(StringLine(cfg, k), name)
  {
    QuoteOneLine(StringAt(cfg, k));
    AssignWritten(k, Quote(StringAt(cfg, k)), name);
  }

  lemma ArgsWritten(name: string, cfg: Cfg)
    ensures AllWritten(ArgsLine(cfg), name)
  {
    if ArgsLine(cfg) != [] {
      var args := Texts(cfg["args"].items);
      ItemsKept(args);
      assert ArrayText(args) == "[" + Items(args);
      AssignWritten("args", ArrayText(args), name);
    }
  }

  lemma BlockWritten(name: string, cfg: Cfg)
    requires ValidName(name)
    ensures AllWritten(Block(name, cfg), name) && AllWritten(Block(name, cfg) + [""], name)
  {
    OwnHeaderWritten(name);
    StringWritten(name, cfg, "url");
    StringWritten(name, cfg, "command");
    ArgsWritten(name, cfg);
    TableWritten(name, "env", cfg, "env");
    TableWritten(name, "http_headers", cfg, "headers");
    NotHeader("");
    assert Written("", name);
    var a := [HeaderText(name)] + StringLine(cfg, "url");
    AllJoin([HeaderText(name)], StringLine(cfg, "url"), name);
    AllJoin(a, StringLine(cfg, "command"), name);
    var b := a + StringLine(cfg, "command");
    AllJoin(b, ArgsLine(cfg), name);
    var c := b + ArgsLine(cfg);
    AllJoin(c, TableLines(name, "env", cfg, "env"), name);
    var d := c + TableLines(name, "env", cfg, "env");
    AllJoin(d, TableLines(name, "http_headers", cfg, "headers"), name);
    AllJoin(Block(name, cfg), [""], name);
  }

  /** The file's lines after an append: the old ones, then the block's. */
  lemma AppendedLines(raw: string, name: string, cfg: Cfg)
    requires ValidName(name)
    ensures Lines(raw + "\n" + Terminated(Block(name, cfg))) == Lines(raw) + (Block(name, cfg) + [""])
  {
    BlockWritten(name, cfg);
    LinesAppend(raw, Terminated(Block(name, cfg)));
    LinesTerminated(Block(name, cfg));
  }

  // ---- main results ----

  function BlockOut(cfg: Cfg): map<string, Json> {
    WithTable(WithTable(Scan(".", true, OwnOut(cfg)), "env", cfg, "env"), "http_headers", cfg, "headers").out
  }

  function Argued(cfg: Cfg): Option<Json> {
    if ArgsLine(cfg) == [] then None else Some(Arr(Strs(Texts(cfg["args"].items))))
  }

  function TableValue(cfg: Cfg, field: string): Option<Json> {
    if Tabled(cfg, field) then Some(Obj(Rows(cfg[field].fields))) else None
  }

  function TextValue(cfg: Cfg, k: string): Option<Json> {
    if StringAt(cfg, k) == "" then None else Some(Str(StringAt(cfg, k)))
  }

  function At(m: map<string, Json>, k: string): Option<Json> {
    if k in m then Some(m[k]) else None
  }

  /** What the reader meets of the block. */
  lemma OutHolds(cfg: Cfg)
    ensures var out := BlockOut(cfg);
            && At(out, "url") == TextValue(cfg, "url") && At(out, "command") == TextValue(cfg, "command")
            && At(out, "args") == Argued(cfg) && At(out, "env") == TableValue(cfg, "env")
            && At(out, "http_headers") == TableValue(cfg, "headers") && At(out, "bearer_token_env_var") == None
  {
    hide Rows, ArgsLine, Texts;
  }

  /** What the reader returns of it. */
  lemma ConfigMembers(cfg: Cfg, env: map<string, string>)
    ensures var c := Config(BlockOut(cfg), env);
            && c.Keys <= {"command", "args", "env", "url", "headers", "type"}
            && At(c, "url") == TextValue(cfg, "url") && At(c, "command") == TextValue(cfg, "command")
            && At(c, "args") == Argued(cfg) && At(c, "env") == TableValue(cfg, "env")
            && At(c, "headers") == TableValue(cfg, "headers")
            && At(c, "type") == (if "url" in c then Some(Str("http")) else None)
  {
    hide BlockOut, Rows, TextValue, Argued;
    OutHolds(cfg);
    var out := BlockOut(cfg);
    if Tabled(cfg, "headers") { RowsSome(cfg["headers"].fields); }
    assert Headers(out, env) == if Tabled(cfg, "headers") then Rows(cfg["headers"].fields) else map[];
    MembersAt(out, env);
  }

  lemma RowsSome(m: map<string, Json>)
    requires m != map[]
    ensures Rows(m) != map[]
  {
    hide Rows, RowKey, Returned;
    RowsKeys(m);
    var k :| k in m;
    IsReturned(k, m);
  }

  lemma MembersAt(out: map<string, Json>, env: map<string, string>)
    ensures var c := Config(out, env);
            && c.Keys <= {"command", "args", "env", "url", "headers", "type"}
            && At(c, "url") == At(out, "url") && At(c, "command") == At(out, "command")
            && At(c, "args") == At(out, "args") && At(c, "env") == At(out, "env")
            && At(c, "headers") == (if Headers(out, env) == map[] then None else Some(Obj(Headers(out, env))))
            && At(c, "type") == (if "url" in out then Some(Str("http")) else None)
  {
    hide Headers, Member, At;
    var headers := Headers(out, env);
    var h: Cfg := if headers != map[] then map["headers" := Obj(headers)] else map[];
    var t: Cfg := if "url" in out then map["type" := Str("http")] else map[];
    var d := Member(out, "command") + Member(out, "args") + Member(out, "env") + Member(out, "url");
    FourAt(out);
    OneAt("headers", Obj(headers), headers != map[]);
    OneAt("type", Str("http"), "url" in out);
    HeadersAdded(d, h);
    TypeAdded(d + h, t);
    assert Config(out, env) == d + h + t;
  }

  lemma HeadersAdded(d: Cfg, h: Cfg)
    requires d.Keys <= {"command", "args", "env", "url"} && h.Keys <= {"headers"}
    ensures (d + h).Keys <= {"command", "args", "env", "url", "headers"} && At(d + h, "headers") == At(h, "headers")
    ensures At(d + h, "url") == At(d, "url") && At(d + h, "command") == At(d, "command")
    ensures At(d + h, "args") == At(d, "args") && At(d + h, "env") == At(d, "env")
  {
    hide At;
    PlusAt(d, h, "headers");
  }

  lemma TypeAdded(d: Cfg, t: Cfg)
    requires d.Keys <= {"command", "args", "env", "url", "headers"} && t.Keys <= {"type"}
    ensures (d + t).Keys <= {"command", "args", "env", "url", "headers", "type"} && At(d + t, "type") == At(t, "type")
    ensures At(d + t, "url") == At(d, "url") && At(d + t, "command") == At(d, "command") && At(d + t, "headers") == At(d, "headers")
    ensures At(d + t, "args") == At(d, "args") && At(d + t, "env") == At(d, "env")
  {
    hide At;
    PlusAt(d, t, "type");
  }

  lemma FourAt(out: map<string, Json>)
    ensures var d := Member(out, "command") + Member(out, "args") + Member(out, "env") + Member(out, "url");
            && d.Keys <= {"command", "args", "env", "url"}
            && At(d, "url") == At(out, "url") && At(d, "command") == At(out, "command")
            && At(d, "args") == At(out, "args") && At(d, "env") == At(out, "env")
  {
    hide Member, At;
    MemberAt(out, "command");
    MemberAt(out, "args");
    MemberAt(out, "env");
    MemberAt(out, "url");
    var a := Member(out, "command");
    PlusAt(a, Member(out, "args"), "args");
    var b := a + Member(out, "args");
    PlusAt(b, Member(out, "env"), "env");
    PlusAt(b + Member(out, "env"), Member(out, "url"), "url");
  }

  lemma MemberAt(out: Cfg, k: string)
    ensures Member(out, k).Keys <= {k} && At(Member(out, k), k) == At(out, k)
  {
  }

  lemma OneAt(k: string, v: Json, there: bool)
    ensures var m: Cfg := if there then map[k := v] else map[]; m.Keys <= {k} && At(m, k) == if there then Some(v) else None
  {
  }

  lemma PlusAt(a: Cfg, b: Cfg, k: string)
    requires b.Keys <= {k} && k !in a
    ensures (a + b).Keys <= a.Keys + {k} && At(a + b, k) == At(b, k)
    ensures forall j | j != k :: At(a + b, j) == At(a, j)
  {
  }

  lemma TextExact(cfg: Cfg, k: string)
    ensures TextValue(cfg, k) == At(cfg, k) <==> (k in cfg ==> cfg[k].Str? && cfg[k].s != "")
  {
  }

  lemma ArgsExact(cfg: Cfg)
    ensures Argued(cfg) == At(cfg, "args")
       <==> ("args" in cfg ==> cfg["args"].Arr? && cfg["args"].items != [] && forall x | x in cfg["args"].items :: x.Str?)
  {
    hide Assign, ArrayText;
    if ArgsLine(cfg) != [] {
      var items := cfg["args"].items;
      var read := Strs(Texts(items));
      if forall x | x in items :: x.Str? {
        assert read == items;
      } else {
        var i :| 0 <= i < |items| && !items[i].Str?;
        assert read[i] != items[i];
      }
    }
  }

  lemma TableExact(cfg: Cfg, field: string)
    requires EqualFreeTable(cfg, field)
    ensures TableValue(cfg, field) == At(cfg, field) <==> TableOk(cfg, field)
  {
    hide Rows, KeyOk;
    if Tabled(cfg, field) { RowsExact(cfg[field].fields); }
  }

  /** The block is read back as the config exactly when it is plain. */
  lemma ConfigExact(cfg: Cfg, env: map<string, string>)
    requires EqualFreeTable(cfg, "env") && EqualFreeTable(cfg, "headers")
    ensures Config(BlockOut(cfg), env) == cfg <==> Plain(cfg)
  {
    hide Config, BlockOut, TextValue, Argued, TableValue, TableOk;
    ConfigMembers(cfg, env);
    TextExact(cfg, "url");
    TextExact(cfg, "command");
    ArgsExact(cfg);
    TableExact(cfg, "env");
    TableExact(cfg, "headers");
    var c := Config(BlockOut(cfg), env);
    SameMembers(c, cfg);
    if c == cfg {
      assert At(cfg, "type") == if "url" in cfg then Some(Str("http")) else None;
    }
    if Plain(cfg) {
      assert At(c, "url") == At(cfg, "url");
      assert At(c, "type") == At(cfg, "type");
    }
  }

  lemma SameMembers(a: Cfg, b: Cfg)
    requires a.Keys <= {"command", "args", "env", "url", "headers", "type"}
    ensures a == b <==>
            && b.Keys <= {"command", "args", "env", "url", "headers", "type"}
            && At(a, "command") == At(b, "command") && At(a, "args") == At(b, "args") && At(a, "env") == At(b, "env")
            && At(a, "url") == At(b, "url") && At(a, "headers") == At(b, "headers") && At(a, "type") == At(b, "type")
  {
    if b.Keys <= {"command", "args", "env", "url", "headers", "type"}
       && At(a, "command") == At(b, "command") && At(a, "args") == At(b, "args") && At(a, "env") == At(b, "env")
       && At(a, "url") == At(b, "url") && At(a, "headers") == At(b, "headers") && At(a, "type") == At(b, "type") {
      forall k ensures At(a, k) == At(b, k) {}
      AllAt(a, b);
    }
  }

  lemma AllAt(a: Cfg, b: Cfg)
    requires forall k :: At(a, k) == At(b, k)
    ensures a == b
  {
    forall k ensures k in a <==> k in b { assert At(a, k) == At(b, k); }
    forall k | k in a ensures a[k] == b[k] { assert At(a, k) == At(b, k); }
  }

  // ---- keys with an '=' ----

  /** No key of the server's tables read so far has an '='. */
  predicate KeysCut(out: map<string, Json>) {
    && ("env" in out && out["env"].Obj? ==> EqualFree(out["env"].fields))
    && ("http_headers" in out && out["http_headers"].Obj? ==> EqualFree(out["http_headers"].fields))
  }

  predicate InTables(line: string, name: string) {
    var h := Header(Clean(line));
    h == None || h == Some([MCP, name, "env"]) || h == Some([MCP, name, "http_headers"])
  }

  lemma EntryKey(line: string)
    requires Entry(line).Some?
    ensures '=' !in Entry(line).value.0
  {
    var i := IndexOf(line, '=');
    TrimChars(line[..i], SPACES);
    TrimChars(TrimSpace(line[..i]), QUOTES);
  }

  lemma StoreCut(st: Scan, k: string, val: Option<Json>)
    requires KeysCut(st.out) && '=' !in k && (st.section == "env" || st.section == "http_headers")
    ensures KeysCut(Store(st, k, val).out)
  {
  }

  /** Whatever its rows look like, a table is read into keys cut before an '='. */
  lemma {:induction false} TablesCut(lines: seq<string>, name: string, st: Scan)
    requires (st.section == "env" || st.section == "http_headers") && KeysCut(st.out)
    requires forall l | l in lines :: InTables(l, name)
    ensures KeysCut(Read(lines, name, st).out)
    decreases |lines|
  {
    hide Clean, Header, Entry, Store, ReadValue, Value, KeysCut;
    if lines != [] {
      var r := Line(lines, name, st);
      assert InTables(lines[0], name);
      if Header(Clean(lines[0])).None? && Entry(Clean(lines[0])).Some? {
        var e := Entry(Clean(lines[0])).value;
        EntryKey(Clean(lines[0]));
        StoreCut(st, e.0, ReadValue(Value(e.1, lines[1..]).0));
        StoreSection(st, e.0, ReadValue(Value(e.1, lines[1..]).0));
      }
      TablesCut(lines[r.1..], name, r.0);
    }
  }

  lemma StoreSection(st: Scan, k: string, val: Option<Json>)
    ensures Store(st, k, val).section == st.section
  {
  }

  lemma RowsInTables(ks: seq<string>, m: map<string, Json>, name: string)
    requires forall k | k in ks :: k in m
    ensures forall l | l in TableRows(ks, m) :: InTables(l, name)
  {
    hide Quote, Clean;
    forall i | 0 <= i < |ks| ensures InTables(TableRows(ks, m)[i], name) {
      var line := TableRows(ks, m)[i];
      QuotedFirst(ks[i]);
      NotHeader(line);
      HeaderIgnoresComment(line);
    }
  }

  lemma QuotedFirst(k: string)
    ensures Quote(k) != "" && Quote(k)[0] == '"'
  {
  }

  lemma TableInTables(name: string, table: string, cfg: Cfg, field: string)
    requires ValidName(name) && '.' !in name && (table == "env" || table == "http_headers")
    ensures forall l | l in TableLines(name, table, cfg, field) + [""] :: InTables(l, name)
  {
    hide Clean, Header, Keys, HeaderText, TableRows, ValidName;
    SubTableKeys(name, table);
    ServerLine(name + "." + table);
    NotHeader("");
    HeaderIgnoresComment("");
    if Tabled(cfg, field) { RowsInTables(SortKeys(cfg[field].fields.Keys), cfg[field].fields, name); }
  }

  /** The block is never read into a table key with an '='. */
  lemma BlockCut(name: string, cfg: Cfg)
    requires ValidName(name) && '.' !in name
    ensures KeysCut(Read(Block(name, cfg) + [""], name, START).out)
  {
    hide Read, TableLines, ValidName, InTables, KeysCut, Block, OwnOut, Tabled;
    var st := Scan(".", true, OwnOut(cfg));
    var headers := TableLines(name, "http_headers", cfg, "headers") + [""];
    BlockStart(name, cfg);
    OwnCut(cfg);
    TableInTables(name, "http_headers", cfg, "headers");
    if Tabled(cfg, "env") {
      TableLinesCut(name, "env", cfg, "env", headers, st);
    } else {
      NoTable(name, "env", cfg, "env");
      assert [] + headers == headers;
      HeadersCut(name, cfg, st);
    }
  }

  lemma HeadersCut(name: string, cfg: Cfg, st: Scan)
    requires ValidName(name) && '.' !in name && st.found && KeysCut(st.out)
    ensures KeysCut(Read(TableLines(name, "http_headers", cfg, "headers") + [""], name, st).out)
  {
    hide Read, TableLines, ValidName, InTables, KeysCut, Tabled;
    if Tabled(cfg, "headers") {
      BlankInTables(name);
      TableLinesCut(name, "http_headers", cfg, "headers", [""], st);
    } else {
      NoTable(name, "http_headers", cfg, "headers");
      assert [] + [""] == [""] + [];
      BlankLine([], name, st);
      NothingRead(name, st);
    }
  }

  lemma NoTable(name: string, table: string, cfg: Cfg, field: string)
    requires !Tabled(cfg, field)
    ensures TableLines(name, table, cfg, field) == []
  {
  }

  lemma TableLinesCut(name: string, table: string, cfg: Cfg, field: string, rest: seq<string>, st: Scan)
    requires ValidName(name) && '.' !in name && (table == "env" || table == "http_headers")
    requires Tabled(cfg, field) && st.found && KeysCut(st.out) && forall l | l in rest :: InTables(l, name)
    ensures KeysCut(Read(TableLines(name, table, cfg, field) + rest, name, st).out)
  {
    hide Read, ValidName, InTables, KeysCut, SortKeys, TableRows, HeaderText;
    TableCut(name, table, cfg[field].fields, rest, st);
    var rows := TableRows(SortKeys(cfg[field].fields.Keys), cfg[field].fields);
    assert TableLines(name, table, cfg, field) + rest == [""] + ([HeaderText(name + "." + table)] + (rows + rest));
  }

  lemma BlankInTables(name: string)
    ensures InTables("", name)
  {
    NotHeader("");
    HeaderIgnoresComment("");
  }

  lemma NothingRead(name: string, st: Scan)
    ensures Read([], name, st) == st
  {
  }

  lemma OwnCut(cfg: Cfg)
    ensures KeysCut(OwnOut(cfg))
  {
    OwnOutKeys(cfg);
  }

  lemma TableCut(name: string, table: string, m: map<string, Json>, rest: seq<string>, st: Scan)
    requires ValidName(name) && '.' !in name && (table == "env" || table == "http_headers")
    requires st.found && KeysCut(st.out) && forall l | l in rest :: InTables(l, name)
    ensures KeysCut(Read([""] + ([HeaderText(name + "." + table)] + (TableRows(SortKeys(m.Keys), m) + rest)), name, st).out)
  {
    hide Read, ValidName, InTables, KeysCut, SortKeys, TableRows, HeaderText;
    var lines := TableRows(SortKeys(m.Keys), m) + rest;
    TableStart(name, table, lines, st);
    RowsInTables(SortKeys(m.Keys), m, name);
    TablesCut(lines, name, st.(section := table));
  }

  /** So a config with an '=' in a table key is never read back. */
  lemma EqualNotReturned(name: string, cfg: Cfg, env: map<string, string>)
    requires ValidName(name) && '.' !in name
    requires Config(Read(Block(name, cfg) + [""], name, START).out, env) == cfg
    ensures EqualFreeTable(cfg, "env") && EqualFreeTable(cfg, "headers")
  {
    hide Read, Block, Config;
    BlockCut(name, cfg);
    var out := Read(Block(name, cfg) + [""], name, START).out;
    MembersAt(out, env);
    HeaderKeysCut(out, env);
    if Tabled(cfg, "env") { assert At(cfg, "env") == Some(cfg["env"]); }
    if Tabled(cfg, "headers") { assert At(cfg, "headers") == Some(cfg["headers"]); }
  }

  lemma HeaderKeysCut(out: map<string, Json>, env: map<string, string>)
    requires KeysCut(out)
    ensures EqualFree(Headers(out, env))
  {
  }

  // ---- main results ----

  /** Writing a server and reading it back gives the same config exactly when
      its name has no dot and the config is plain. */
  lemma WriteRead(raw: string, name: string, cfg: Cfg, env: map<string, string>, env': map<string, string>)
    requires Append(raw, name, cfg, env).0 == Done
    ensures Server(Append(raw, name, cfg, env).1, name, env') == Some(cfg) <==> '.' !in name && Plain(cfg)
  {
    hide Read, Block, Config, ValidName, Plain, EqualFreeTable, BlockOut;
    if '.' in name {
      DottedUnread(raw, name, cfg, env, env');
    } else {
      AppendedRead(raw, name, cfg, env, env');
      if Config(Read(Block(name, cfg) + [""], name, START).out, env') == cfg {
        EqualNotReturned(name, cfg, env');
      }
      if Plain(cfg) { PlainEqualFree(cfg); }
      if EqualFreeTable(cfg, "env") && EqualFreeTable(cfg, "headers") {
        BlockIs(name, cfg);
        ConfigExact(cfg, env');
      }
    }
  }

  lemma AppendedRead(raw: string, name: string, cfg: Cfg, env: map<string, string>, env': map<string, string>)
    requires Append(raw, name, cfg, env).0 == Done && '.' !in name
    ensures Server(Append(raw, name, cfg, env).1, name, env') == Some(Config(Read(Block(name, cfg) + [""], name, START).out, env'))
  {
    hide Block, Config, Read, Lines;
    var block := Block(name, cfg) + [""];
    var raw' := Append(raw, name, cfg, env).1;
    AppendedLines(raw, name, cfg);
    ReaderFindsTables(raw, name, env);
    NoTableAppend(Lines(raw), block, name, START);
    BlockHeader(name, cfg);
    StemPlain(name);
    assert block[0] in Lines(raw') && ServerHeader(block[0], name);
    ReaderFindsTables(raw', name, env');
  }

  /** The block starts with the header of the server its name's stem stands for. */
  lemma BlockHeader(name: string, cfg: Cfg)
    requires ValidName(name)
    ensures Block(name, cfg) != [] && Block(name, cfg)[0] == HeaderText(name) && ServerHeader(HeaderText(name), Stem(name))
  {
    hide HeaderText, StringLine, ArgsLine, TableLines, ValidName;
    OwnHeaderWritten(name);
  }

  lemma PlainEqualFree(cfg: Cfg)
    requires Plain(cfg)
    ensures EqualFreeTable(cfg, "env") && EqualFreeTable(cfg, "headers")
  {
    hide Escape;
  }

  lemma BlockIs(name: string, cfg: Cfg)
    requires ValidName(name) && '.' !in name && EqualFreeTable(cfg, "env") && EqualFreeTable(cfg, "headers")
    ensures Read(Block(name, cfg) + [""], name, START).out == BlockOut(cfg)
  {
    hide Read, Block, OwnOut, WithTable;
    BlockRead(name, cfg);
  }

  /** An append is refused for a bad name and, writing nothing, when the file has
      a table of the name; otherwise it writes behind the file's old text. */
  lemma AppendOutcome(raw: string, name: string, cfg: Cfg, env: map<string, string>)
    ensures Append(raw, name, cfg, env).0 == if !ValidName(name) then BadName else if HasTable(Lines(raw), name) then Exists else Done
    ensures Append(raw, name, cfg, env).0 != Done ==> Append(raw, name, cfg, env).1 == raw
    ensures Append(raw, name, cfg, env).0 == Done ==> raw <= Append(raw, name, cfg, env).1
  {
    hide Block, ValidName, HasTable, Lines, Server;
    ReaderFindsTables(raw, name, env);
  }

  /** A dotted name: what is written belongs to the server named by its stem,
      so the server put back is never found (and is written again next time). */
  lemma DottedUnread(raw: string, name: string, cfg: Cfg, env: map<string, string>, env': map<string, string>)
    requires Append(raw, name, cfg, env).0 == Done && '.' in name
    ensures var raw' := Append(raw, name, cfg, env).1;
            && Server(raw', name, env').None? && Server(raw', Stem(name), env').Some?
            && PutBack(raw', name, cfg, env') == (Done, raw' + "\n" + Terminated(Block(name, cfg)))
            && Remove(raw', name).None?
  {
    var raw' := Append(raw, name, cfg, env).1;
    AppendedLines(raw, name, cfg);
    BlockWritten(name, cfg);
    ReaderFindsTables(raw, name, env);
    ReaderFindsTables(raw', name, env');
    ReaderFindsTables(raw', Stem(name), env');
    DottedName(name, "");
    forall l | l in Lines(raw') ensures !ServerHeader(l, name) {
      assert l in Lines(raw) || l in Block(name, cfg) + [""];
    }
    OwnHeaderWritten(name);
    var h := HeaderText(name);
    assert (Block(name, cfg) + [""])[0] == h && h in Lines(raw') && ServerHeader(h, Stem(name));
  }

  /** A config json.Marshal leaves as it is. */
  predicate NoNils(cfg: Cfg) {
    forall k | k in cfg ::
      || cfg[k].Str? || StringTable(cfg[k])
      || (cfg[k].Arr? && cfg[k].items != [] && forall x | x in cfg[k].items :: x.Str?)
  }

  lemma {:induction false} MarshalSame(cfg: Cfg)
    requires NoNils(cfg)
    ensures Marshalled(Obj(cfg)) == Obj(cfg)
  {
    forall k | k in cfg ensures Marshalled(cfg[k]) == cfg[k] {
      if cfg[k].Arr? {
        assert Marshalled(cfg[k]).items == cfg[k].items;
      } else if cfg[k].Obj? {
        assert Marshalled(cfg[k]).fields == cfg[k].fields;
      }
    }
  }

  lemma MarshalPlain(cfg: Cfg)
    requires Plain(cfg)
    ensures Marshalled(Obj(cfg)) == Obj(cfg)
  {
    MarshalSame(cfg);
  }

  /** A put-back done again is taken as done and writes nothing; any other
      config under the name is refused and writes nothing. */
  lemma PutBackAgain(raw: string, name: string, cfg: Cfg, again: Cfg, env: map<string, string>, env': map<string, string>)
    requires PutBack(raw, name, cfg, env).0 == Done && Server(raw, name, env).None? && Plain(cfg) && '.' !in name
    ensures var raw' := PutBack(raw, name, cfg, env).1;
            PutBack(raw', name, again, env') == (if again == cfg then Done else Exists, raw')
  {
    WriteRead(raw, name, cfg, env, env');
    MarshalPlain(cfg);
  }

  /** A retried put-back of the config that was written is accepted, and not
      refused, exactly when the config is plain. */
  lemma RetryExact(raw: string, name: string, cfg: Cfg, env: map<string, string>, env': map<string, string>)
    requires Append(raw, name, cfg, env).0 == Done && '.' !in name
    ensures var raw' := Append(raw, name, cfg, env).1;
            PutBack(raw', name, cfg, env') == (if Plain(cfg) then Done else Exists, raw')
  {
    hide Read, Block, Config, ValidName, Plain, Marshalled, EqualFreeTable;
    AppendedRead(raw, name, cfg, env, env');
    WriteRead(raw, name, cfg, env, env');
    var had := Config(Read(Block(name, cfg) + [""], name, START).out, env');
    if Plain(cfg) { MarshalPlain(cfg); }
    if Marshalled(Obj(had)) == Obj(cfg) {
      MarshalledCut(name, cfg, env');
      BlockIs(name, cfg);
      CarriedNoNils(cfg, env');
      MarshalSame(had);
    }
  }

  /** What a block whose table keys have no '=' is read back as has no nil. */
  lemma CarriedNoNils(cfg: Cfg, env: map<string, string>)
    ensures NoNils(Config(BlockOut(cfg), env))
  {
    hide Config, BlockOut;
    ConfigMembers(cfg, env);
    var c := Config(BlockOut(cfg), env);
    TableNoNil(cfg, "env");
    TableNoNil(cfg, "headers");
    forall k | k in c
      ensures c[k].Str? || StringTable(c[k]) || (c[k].Arr? && c[k].items != [] && forall x | x in c[k].items :: x.Str?)
    {
      assert At(c, k) == Some(c[k]);
      if k == "args" { assert Argued(cfg).Some?; }
    }
  }

  lemma TableNoNil(cfg: Cfg, field: string)
    ensures TableValue(cfg, field).Some? ==> StringTable(TableValue(cfg, field).value)
  {
    hide Rows, Returned;
    if Tabled(cfg, field) { RowsKeys(cfg[field].fields); }
  }

  lemma MarshalledCut(name: string, cfg: Cfg, env: map<string, string>)
    requires ValidName(name) && '.' !in name
    requires Marshalled(Obj(Config(Read(Block(name, cfg) + [""], name, START).out, env))) == Obj(cfg)
    ensures EqualFreeTable(cfg, "env") && EqualFreeTable(cfg, "headers")
  {
    hide Read, Block, Config, Headers, KeysCut;
    BlockCut(name, cfg);
    var out := Read(Block(name, cfg) + [""], name, START).out;
    var had := Config(out, env);
    MembersAt(out, env);
    HadCut(out, env);
    MarshalledTable(had, cfg, "env");
    MarshalledTable(had, cfg, "headers");
  }

  lemma HadCut(out: map<string, Json>, env: map<string, string>)
    requires KeysCut(out)
    ensures EqualFreeTable(Config(out, env), "env") && EqualFreeTable(Config(out, env), "headers")
  {
    hide Config;
    MembersAt(out, env);
    HeaderKeysCut(out, env);
    var c := Config(out, env);
    if Tabled(c, "env") { assert At(c, "env") == Some(c["env"]); }
    if Tabled(c, "headers") { assert At(c, "headers") == Some(c["headers"]); }
  }

  lemma MarshalledTable(had: Cfg, cfg: Cfg, field: string)
    requires Marshalled(Obj(had)) == Obj(cfg) && EqualFreeTable(had, field)
    ensures EqualFreeTable(cfg, field)
  {
    if Tabled(cfg, field) {
      assert cfg[field] == Marshalled(had[field]);
      assert cfg[field].fields.Keys == had[field].fields.Keys;
      assert Tabled(had, field);
    }
  }

  lemma {:induction false} KeepOthers(a: seq<string>, b: seq<string>, name: string)
    requires !HasTable(a, name)
    ensures Keep(a + b, name, false) == a + Keep(b, name, false)
  {
    hide Header, TrimSpace;
    if a == [] {
      assert a + b == b;
    } else {
      assert !ServerHeader(a[0], name);
      assert (a + b)[1..] == a[1..] + b;
      KeepOthers(a[1..], b, name);
    }
  }

  lemma {:induction false} KeepNone(b: seq<string>, name: string)
    requires forall l | l in b :: Header(TrimSpace(l)).Some? ==> ServerHeader(l, name)
    ensures Keep(b, name, true) == []
  {
    if b != [] {
      assert b[0] in b;
      KeepNone(b[1..], name);
    }
  }

  /** Removing a server just written gives back the file byte for byte, exactly
      when its name has no dot. */
  lemma AppendRemove(raw: string, name: string, cfg: Cfg, env: map<string, string>)
    requires Append(raw, name, cfg, env).0 == Done
    ensures Remove(Append(raw, name, cfg, env).1, name) == Some(raw) <==> '.' !in name
  {
    if '.' in name {
      DottedUnread(raw, name, cfg, env, env);
    } else {
      PlainAppendRemove(raw, name, cfg, env);
    }
  }

  lemma BlockSkipped(name: string, cfg: Cfg)
    requires ValidName(name) && '.' !in name
    ensures ServerHeader((Block(name, cfg) + [""])[0], name)
    ensures Keep(Block(name, cfg) + [""], name, false) == []
  {
    var block := Block(name, cfg) + [""];
    StemPlain(name);
    BlockWritten(name, cfg);
    OwnHeaderWritten(name);
    assert block[0] == HeaderText(name) && Written(block[0], name);
    forall l | l in block[1..] ensures Header(TrimSpace(l)).Some? ==> ServerHeader(l, name) {
      assert l in block && Written(l, name);
    }
    KeepNone(block[1..], name);
  }

  lemma PlainAppendRemove(raw: string, name: string, cfg: Cfg, env: map<string, string>)
    requires Append(raw, name, cfg, env).0 == Done && '.' !in name
    ensures Remove(Append(raw, name, cfg, env).1, name) == Some(raw)
  {
    var block := Block(name, cfg) + [""];
    AppendedLines(raw, name, cfg);
    ReaderFindsTables(raw, name, env);
    BlockSkipped(name, cfg);
    assert block[0] in Lines(raw) + block;
    KeepOthers(Lines(raw), block, name);
    assert Lines(raw) + [] == Lines(raw);
    JoinLines(raw);
  }

  /** Writing a server leaves the entries taken for another one as they were
      exactly when none of its arrays runs to the end of the file. */
  lemma AppendExact(raw: string, name: string, cfg: Cfg, other: string, env: map<string, string>)
    requires Append(raw, name, cfg, env).0 == Done && other != Stem(name)
    ensures Reads(Lines(Append(raw, name, cfg, env).1), other, START) == Reads(Lines(raw), other, START)
       <==> !EndsOpen(Lines(raw), other, START)
  {
    hide Lines, Block, ValidName, Reads, HasTable;
    AppendedLines(raw, name, cfg);
    BlockHeader(name, cfg);
    BlockOthers(name, cfg, other);
    AddedScan(Lines(raw), Block(name, cfg) + [""], other, START);
  }

  lemma BlockOthers(name: string, cfg: Cfg, other: string)
    requires ValidName(name) && other != Stem(name)
    ensures !HasTable(Block(name, cfg) + [""], other)
  {
    hide Block, ValidName, Header;
    BlockWritten(name, cfg);
    forall l | l in Block(name, cfg) + [""] ensures !ServerHeader(l, other) { assert Written(l, name); }
  }

  /** It then leaves what is read for it as it was, too. */
  lemma AppendFrame(raw: string, name: string, cfg: Cfg, other: string, env: map<string, string>, env': map<string, string>)
    requires Append(raw, name, cfg, env).0 == Done && other != Stem(name) && !EndsOpen(Lines(raw), other, START)
    ensures Server(Append(raw, name, cfg, env).1, other, env') == Server(raw, other, env')
  {
    hide Lines, Block, ValidName, Reads, Server;
    var raw' := Append(raw, name, cfg, env).1;
    AppendExact(raw, name, cfg, other, env);
    AppendedLines(raw, name, cfg);
    BlockOthers(name, cfg, other);
    assert forall l :: l in Lines(raw') <==> l in Lines(raw) || l in Block(name, cfg) + [""];
    SameEntries(raw', raw, other, env');
  }

  /** Moving a server out of the file and putting it back. A bad name is
      refused. Else it is read as it was read before exactly when its name has
      no dot and its config is plain, and can be moved out again to the same
      file exactly when its name has no dot; every other server none of whose
      arrays runs over its headers or to the end is read as before. */
  lemma MoveRoundTrip(raw: string, name: string, other: string, env: map<string, string>, env': map<string, string>)
    requires Server(raw, name, env).Some?
    ensures var cfg := Server(raw, name, env).value;
            && Remove(raw, name).Some?
            && var out := Remove(raw, name).value;
               var back := PutBack(out, name, cfg, env');
               && (!ValidName(name) ==> back == (BadName, out))
               && (ValidName(name) ==>
                     && back.0 == Done
                     && (Server(back.1, name, env') == Some(cfg) <==> '.' !in name && Plain(cfg))
                     && (Remove(back.1, name) == Some(out) <==> '.' !in name)
                     && (other != name && other != Stem(name) && SparesAll(Lines(raw), name, other, START) && !EndsOpen(Lines(raw), other, START) ==>
                           Server(back.1, other, env') == Server(raw, other, env')))
  {
    hide Server, Remove, Lines, Block, Plain, ValidName, SparesAll, Reads;
    MovedOut(raw, name, env, env');
    if ValidName(name) {
      var cfg, out := Server(raw, name, env).value, Remove(raw, name).value;
      var back := PutBack(out, name, cfg, env').1;
      assert Append(out, name, cfg, env') == (Done, back);
      WriteRead(out, name, cfg, env', env');
      AppendRemove(out, name, cfg, env');
      if other != name && other != Stem(name) && SparesAll(Lines(raw), name, other, START) && !EndsOpen(Lines(raw), other, START) {
        RemovalExact(raw, name, other);
        RemovalFrame(raw, name, other, env');
        AppendFrame(out, name, cfg, other, env', env');
      }
    }
  }

  lemma MovedOut(raw: string, name: string, env: map<string, string>, env': map<string, string>)
    requires Server(raw, name, env).Some?
    ensures Remove(raw, name).Some? && Server(Remove(raw, name).value, name, env').None?
  {
    ReaderFindsTables(raw, name, env);
    RemovedUnreadable(raw, name, env');
  }
}
