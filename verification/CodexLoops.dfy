/** The Codex code in its own form: byte loops, line loops and a string builder,
    each proved to compute the function the other modules reason about. */
module CodexLoops {
  import opened Text
  import opened Json
  import opened CodexSyntax
  import opened CodexServers
  import opened CodexWriter

  method StripLine(line: string) returns (r: string)
    ensures r == StripComment(line)
  {
    var quote := NUL;
    var i := 0;
    while i < |line|
      invariant if i <= |line| then i + Kept(line[i..], quote) == Kept(line, NUL) else Kept(line, NUL) == |line|
    {
      var c := line[i];
      ghost var rest := line[i..];
      assert rest[1..] == line[i + 1..];
      assert i + 2 <= |line| ==> rest[2..] == line[i + 2..];
      if quote == NUL && c == '#' {
        return line[..i];
      } else if quote == NUL && c in QUOTES {
        quote := c;
      } else if quote == '"' && c == '\\' {
        i := i + 1;
      } else if c == quote {
        quote := NUL;
      }
      i := i + 1;
    }
    assert line[..|line|] == line;
    r := line;
  }

  method TableKeys(line: string) returns (keys: seq<string>, ok: bool)
    ensures (if ok then Some(keys) else None) == Header(line)
  {
    keys := [];
    if !HasPrefix(line, "[") || HasPrefix(line, "[[") {
      return [], false;
    }
    var text := TrimSpace(line[..IndexOf(line, '#')]);
    if text == "" || text[|text| - 1] != ']' {
      return [], false;
    }
    var inner := text[..|text| - 1];
    if HasPrefix(inner, "[") {
      inner := inner[1..];
    }
    while inner != ""
      invariant Keys(inner, keys) == Header(line)
      decreases |inner|
    {
      inner := TrimLeft(inner, {' ', '\t', '.'});
      if inner == "" {
        break;
      }
      assert TrimLeft(inner, {' ', '\t', '.'}) == inner;
      if inner[0] in QUOTES {
        var end := IndexOf(inner[1..], inner[0]);
        if end == |inner| - 1 {
          return [], false;
        }
        keys := keys + [inner[1..end + 1]];
        inner := inner[end + 2..];
      } else {
        var i := IndexOf(inner, '.');
        keys := keys + [TrimSpace(inner[..i])];
        inner := if i < |inner| then inner[i + 1..] else "";
      }
    }
    ok := true;
  }

  method StringAtStart(s: string) returns (r: Option<(string, string)>)
    ensures r == ReadString(s)
  {
    hide TrimSpace, Unescape;
    var t := TrimSpace(s);
    if t == "" {
      return None;
    }
    if t[0] == '"' {
      var i := 1;
      while i < |t|
        invariant 1 <= i
        invariant if i <= |t| then i + Closing(t[i..]) == 1 + Closing(t[1..]) else 1 + Closing(t[1..]) == |t|
      {
        ghost var rest := t[i..];
        assert rest[1..] == t[i + 1..];
        assert i + 2 <= |t| ==> rest[2..] == t[i + 2..];
        if t[i] == '\\' {
          i := i + 2;
        } else if t[i] == '"' {
          var v := Unescape(t[1..i]);
          return if v.Some? then Some((v.value, t[i + 1..])) else None;
        } else {
          i := i + 1;
        }
      }
      return None;
    }
    if t[0] == '\'' {
      var end := IndexOf(t[1..], '\'');
      if end < |t| - 1 {
        return Some((t[1..end + 1], t[end + 2..]));
      }
    }
    r := None;
  }

  method ArrayItems(s: string) returns (r: Option<Json>)
    ensures r == ReadItems(s, [])
  {
    var out: seq<Json> := [];
    var rest := s;
    while true
      invariant ReadItems(rest, out) == ReadItems(s, [])
      decreases |rest|
    {
      var t := TrimLeft(rest, {' ', '\t', '\r', '\n', ','});
      if t == "" || t[0] == ']' {
        return Some(Arr(out));
      }
      var v := StringAtStart(t);
      if v == None {
        return None;
      }
      out, rest := out + [Str(v.value.0)], v.value.1;
    }
  }

  method TableFields(s: string) returns (r: Option<Json>)
    ensures r == ReadFields(s, map[])
  {
    var out: map<string, Json> := map[];
    var rest := s;
    while true
      invariant ReadFields(rest, out) == ReadFields(s, map[])
      decreases |rest|
    {
      var t := TrimLeft(rest, {' ', '\t', ','});
      if t == "" || t[0] == '}' {
        return Some(Obj(out));
      }
      var k: Option<(string, string)>;
      if t[0] in QUOTES {
        k := StringAtStart(t);
      } else {
        var i := IndexOf(t, '=');
        k := if i == |t| then None else Some((TrimSpace(t[..i]), t[i..]));
      }
      if k == None {
        return None;
      }
      var after := TrimLeft(k.value.1, {' ', '\t'});
      if !HasPrefix(after, "=") {
        return None;
      }
      var v := StringAtStart(after[1..]);
      if v == None {
        return None;
      }
      out, rest := out[k.value.0 := Str(v.value.0)], v.value.1;
    }
  }

  method ValueAtStart(s: string) returns (r: Option<Json>)
    ensures r == ReadValue(s)
  {
    var t := TrimSpace(s);
    if t == "" {
      return None;
    }
    if t[0] in QUOTES {
      var v := StringAtStart(t);
      return if v.Some? then Some(Str(v.value.0)) else None;
    }
    if t[0] == '[' {
      r := ArrayItems(t[1..]);
    } else if t[0] == '{' {
      r := TableFields(t[1..]);
    } else {
      r := None;
    }
  }

  /** The loop that reads a multi-line array on, from line i. */
  method ReadArrayOn(v0: string, lines: seq<string>, i0: nat) returns (v: string, i: nat)
    requires i0 <= |lines| && Open(v0)
    ensures i0 <= i <= |lines| && (v, i - i0) == Value(v0, lines[i0..])
  {
    v, i := v0, i0;
    while i < |lines| && ']' !in v
      invariant i0 <= i <= |lines|
      invariant ReadOn(v0, lines[i0..]).0 == ReadOn(v, lines[i..]).0
      invariant ReadOn(v0, lines[i0..]).1 == ReadOn(v, lines[i..]).1 + (i - i0)
    {
      assert lines[i..][1..] == lines[i + 1..];
      var stripped := StripLine(lines[i]);
      v := v + " " + TrimSpace(stripped);
      i := i + 1;
    }
  }

  /** The body of the line loop, at line i. */
  method ReadOneLine(lines: seq<string>, i0: nat, name: string, st0: Scan) returns (st: Scan, i: nat)
    requires i0 < |lines|
    ensures i0 < i <= |lines| && (st, i - i0) == Line(lines[i0..], name, st0)
  {
    hide Header, Keys, ReadValue, Store, Enter, Entry, StripComment, TrimSpace;
    st, i := st0, i0 + 1;
    assert lines[i0..][1..] == lines[i0 + 1..];
    var stripped := StripLine(lines[i0]);
    var line := TrimSpace(stripped);
    if line == "" {
      return;
    }
    var keys, ok := TableKeys(line);
    if ok {
      st := Enter(st, keys, name);
      return;
    }
    if st.section == "" || st.section == "-" {
      return;
    }
    var e := Entry(line);
    if e == None {
      return;
    }
    var k, v := e.value.0, e.value.1;
    if Open(v) {
      v, i := ReadArrayOn(v, lines, i);
    }
    var val := ValueAtStart(v);
    st := Store(st, k, val);
  }

  method ScanLines(lines: seq<string>, name: string) returns (st: Scan)
    ensures st == Read(lines, name, START)
  {
    hide Line, Clean, Header, Keys, Value, Store, Enter, ReadValue;
    st := START;
    var i := 0;
    assert lines[0..] == lines;
    while i < |lines|
      invariant 0 <= i <= |lines|
      invariant Read(lines[i..], name, st) == Read(lines, name, START)
    {
      ReadStep(lines, i, name, st);
      st, i := ReadOneLine(lines, i, name, st);
    }
    assert lines[i..] == [];
  }

  /** codexServer. */
  method ReadServer(raw: string, name: string, env: map<string, string>) returns (r: Option<map<string, Json>>)
    ensures r == Server(raw, name, env)
  {
    var st := ScanLines(Lines(raw), name);
    r := if st.found then Some(Config(st.out, env)) else None;
  }

  lemma ReadStep(lines: seq<string>, i: nat, name: string, st: Scan)
    requires i < |lines|
    ensures var r := Line(lines[i..], name, st);
            Read(lines[i..], name, st) == Read(lines[i + r.1..], name, r.0)
  {
    var r := Line(lines[i..], name, st);
    assert lines[i..][r.1..] == lines[i + r.1..];
  }

  method TableOfServer(line: string, name: string, skip: bool) returns (skips: bool, header: bool)
    ensures skips == Skips(line, name, skip) && header == ServerHeader(line, name)
  {
    skips, header := skip, false;
    var keys, ok := TableKeys(TrimSpace(line));
    if ok {
      skips := |keys| >= 2 && keys[0] == MCP && keys[1] == name;
      header := skips;
    }
  }

  method KeepLines(lines: seq<string>, name: string) returns (kept: seq<string>, found: bool)
    ensures kept == Keep(lines, name, false) && found == HasTable(lines, name)
  {
    hide Header, Skips, ServerHeader, TrimSpace;
    kept, found := [], false;
    var skip, header := false, false;
    assert lines[0..] == lines;
    for i := 0 to |lines|
      invariant kept + Keep(lines[i..], name, skip) == Keep(lines, name, false)
      invariant found <==> HasTable(lines[..i], name)
    {
      var line := lines[i];
      assert lines[i..] == [line] + lines[i + 1..] && lines[..i + 1] == lines[..i] + [line];
      KeepCons(line, lines[i + 1..], name, skip);
      TableOfOneMore(lines[..i], line, name);
      skip, header := TableOfServer(line, name, skip);
      found := found || header;
      if !skip {
        kept := kept + [line];
      }
    }
    assert kept + [] == kept && lines[..|lines|] == lines;
  }

  /** removeCodexServer: the text it writes. */
  method RemoveServer(raw: string, name: string) returns (r: Option<string>)
    ensures r == Remove(raw, name)
  {
    var kept, found := KeepLines(Lines(raw), name);
    r := if found then Some(Join(kept, "\n")) else None;
  }

  lemma TableOfOneMore(ls: seq<string>, l: string, name: string)
    ensures HasTable(ls + [l], name) <==> HasTable(ls, name) || ServerHeader(l, name)
  {
    assert (ls + [l])[|ls|] == l;
    assert forall x | x in ls :: x in ls + [l];
  }

  // ---- the writer ----

  lemma {:induction false} TerminatedJoin(a: seq<string>, b: seq<string>)
    ensures Terminated(a + b) == Terminated(a) + Terminated(b)
  {
    if a == [] {
      assert a + b == b;
    } else {
      assert (a + b)[1..] == a[1..] + b;
      TerminatedJoin(a[1..], b);
    }
  }

  lemma TerminatedOne(ls: seq<string>, l: string)
    ensures Terminated(ls + [l]) == Terminated(ls) + (l + "\n")
  {
    TerminatedJoin(ls, [l]);
    assert [l][1..] == [];
    assert Terminated([l]) == l + "\n";
  }

  method AppendString(b0: string, ghost lines: seq<string>, k: string, cfg: Cfg) returns (b: string)
    requires b0 == "\n" + Terminated(lines)
    ensures b == "\n" + Terminated(lines + StringLine(cfg, k))
  {
    hide Quote, Assign, Terminated, StringAt;
    b := b0;
    var u := StringAt(cfg, k);
    if u == "" {
      assert lines + [] == lines;
    } else {
      TerminatedOne(lines, Assign(k, Quote(u)));
      b := b + (Assign(k, Quote(u)) + "\n");
    }
  }

  method AppendArgs(b0: string, ghost lines: seq<string>, cfg: Cfg) returns (b: string)
    requires b0 == "\n" + Terminated(lines)
    ensures b == "\n" + Terminated(lines + ArgsLine(cfg))
  {
    hide Quote, Terminated, Join;
    b := b0;
    if "args" !in cfg || !cfg["args"].Arr? || cfg["args"].items == [] {
      assert lines + [] == lines;
      return;
    }
    var args, parts := cfg["args"].items, [];
    for i := 0 to |args|
      invariant parts == Quoted(Texts(args))[..i]
    {
      parts := parts + [Quote(ToString(args[i]))];
    }
    assert parts == Quoted(Texts(args));
    TerminatedOne(lines, Assign("args", ArrayText(Texts(args))));
    b := b + (Assign("args", "[" + Join(parts, ", ") + "]") + "\n");
  }

  method AppendRows(b0: string, ghost lines: seq<string>, keys: seq<string>, m: map<string, Json>) returns (b: string)
    requires b0 == "\n" + Terminated(lines) && forall k | k in keys :: k in m
    ensures b == "\n" + Terminated(lines + TableRows(keys, m))
  {
    hide Assign, Quote, Terminated;
    b := b0;
    ghost var rows := TableRows(keys, m);
    assert lines + rows[..0] == lines;
    for i := 0 to |keys|
      invariant b == "\n" + Terminated(lines + rows[..i])
    {
      var k := keys[i];
      TerminatedOne(lines + rows[..i], rows[i]);
      assert lines + rows[..i + 1] == lines + rows[..i] + [rows[i]];
      b := b + (Assign(Quote(k), Quote(ToString(m[k]))) + "\n");
    }
    assert rows[..|keys|] == rows;
  }

  method AppendTable(b0: string, ghost lines: seq<string>, name: string, table: string, cfg: Cfg, field: string) returns (b: string)
    requires b0 == "\n" + Terminated(lines)
    ensures b == "\n" + Terminated(lines + TableLines(name, table, cfg, field))
  {
    hide Assign, Quote, HeaderText, SortKeys;
    b := b0;
    if field !in cfg || !cfg[field].Obj? || cfg[field].fields == map[] {
      assert lines + [] == lines;
      return;
    }
    var m := cfg[field].fields;
    var h := HeaderText(name + "." + table);
    TerminatedOne(lines, "");
    TerminatedOne(lines + [""], h);
    b := b + ("" + "\n") + (h + "\n");
    ghost var rows := TableRows(SortKeys(m.Keys), m);
    b := AppendRows(b, lines + [""] + [h], SortKeys(m.Keys), m);
    assert lines + [""] + [h] + rows == lines + (["", h] + rows);
  }

  /** appendCodexServer: the error and the file's text afterwards. */
  method AppendServer(raw: string, name: string, cfg: Cfg, env: map<string, string>) returns (e: Outcome, text: string)
    ensures (e, text) == Append(raw, name, cfg, env)
  {
    hide ValidName, HeaderText, StringLine, ArgsLine, TableLines, Server;
    if !ValidName(name) {
      return BadName, raw;
    }
    var had := ReadServer(raw, name, env);
    if had.Some? {
      return Exists, raw;
    }
    ghost var lines := [HeaderText(name)];
    TerminatedOne([], HeaderText(name));
    assert [] + [HeaderText(name)] == lines;
    var b := "\n" + (HeaderText(name) + "\n");
    b := AppendString(b, lines, "url", cfg);
    lines := lines + StringLine(cfg, "url");
    b := AppendString(b, lines, "command", cfg);
    lines := lines + StringLine(cfg, "command");
    b := AppendArgs(b, lines, cfg);
    lines := lines + ArgsLine(cfg);
    b := AppendTable(b, lines, name, "env", cfg, "env");
    lines := lines + TableLines(name, "env", cfg, "env");
    b := AppendTable(b, lines, name, "http_headers", cfg, "headers");
    assert raw + ("\n" + Terminated(Block(name, cfg))) == raw + "\n" + Terminated(Block(name, cfg));
    return Done, raw + b;
  }
}
