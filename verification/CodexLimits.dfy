/** Where the Codex round trip and the removal frame end: table keys the writer
    cannot carry, and arrays that swallow a header. */
module CodexLimits {
  import opened Text
  import opened Json
  import opened CodexSyntax
  import opened CodexKeys
  import opened CodexServers
  import opened CodexWriter

  // ---- table keys ----

  /** A table is read back as written exactly when every value is a string and
      no key has an '=', anything strconv.Quote escapes, or a single quote at
      either end. */
  lemma TableReadExact(m: map<string, Json>, name: string)
    requires m != map[]
    ensures Read(TableRows(SortKeys(m.Keys), m), name, Scan("env", true, map[])).out == map["env" := Obj(m)]
       <==> forall k | k in m :: KeyOk(k) && m[k].Str?
  {
    hide Read, TableRows, SortKeys, Rows, KeyOk, InTables;
    var st := Scan("env", true, map[]);
    var rows := TableRows(SortKeys(m.Keys), m);
    assert rows + [] == rows;
    if EqualFree(m) {
      RowsOfTable(name, m, [], st);
      NothingRead(name, st.(out := st.out["env" := Obj(Rows(m))]));
      assert map[]["env" := Obj(Rows(m))] == map["env" := Obj(Rows(m))];
      assert map["env" := Obj(Rows(m))]["env"] == Obj(Rows(m)) && map["env" := Obj(m)]["env"] == Obj(m);
      RowsExact(m);
    } else {
      RowsInTables(SortKeys(m.Keys), m, name);
      TablesCut(rows, name, st);
      assert !KeysCut(map["env" := Obj(m)]);
      assert exists k :: k in m && !KeyOk(k) by { NotFree(m); }
    }
  }

  lemma NotFree(m: map<string, Json>)
    requires !EqualFree(m)
    ensures exists k :: k in m && !KeyOk(k)
  {
    hide Escape;
    var k :| k in m && '=' in k;
    assert !KeyOk(k);
  }

  // ---- an array left open ----

  /** A file where an array of b's is not closed before a's table. */
  function Swallowing(a: string, b: string, u: string): seq<string> {
    [HeaderText(b), Assign("args", "["), HeaderText(a), Assign("command", Quote(u))]
  }

  lemma BracketText()
    ensures Kept("[", NUL) == 1 && Bounded("[", SPACES) && Open("[") && "[" != ""
  {
    KeptPlain("[", "");
    assert "[" + "" == "[";
  }

  lemma OpenLine(rest: seq<string>, name: string, st: Scan)
    requires st == Scan(".", true, map[])
    ensures Line([Assign("args", "[")] + rest, name, st)
         == (Store(st, "args", ReadValue(ReadOn("[", rest).0)), 1 + ReadOn("[", rest).1)
  {
    hide Kept, Clean, Header, Entry, ReadValue, ReadOn, Trim, Assign, Store;
    BracketText();
    WordKept("args", "[");
    AssignRead("args", "[");
    var lines := [Assign("args", "[")] + rest;
    assert lines[0] == Assign("args", "[") && lines[1..] == rest;
    assert Value("[", rest) == ReadOn("[", rest);
  }

  lemma NestedArray(t: string)
    ensures ReadValue("[ [" + t) == None
  {
    var v := "[ [" + t;
    var w := TrimSpace(v);
    assert TrimLeft(v, SPACES) == v;
    SecondThird(v);
    assert w[0] == '[' && w[1..][0] == ' ' && w[1..][1] == '[';
    var cut := {' ', '\t', '\r', '\n', ','};
    var x := w[1..][1..];
    assert x[0] == '[';
    assert TrimLeft(w[1..], cut) == TrimLeft(x, cut) == x;
    FirstOfTrim(x);
  }

  lemma FirstOfTrim(x: string)
    requires x != "" && x[0] == '['
    ensures ReadString(x) == None
  {
    FirstKept(x);
    assert TrimLeft(x, SPACES) == x;
  }

  lemma SecondThird(b: string)
    requires |b| >= 3 && b[2] !in SPACES
    ensures |TrimRight(b, SPACES)| >= 3
    ensures TrimRight(b, SPACES)[..3] == b[..3]
  {
    if |b| > 3 && b[|b| - 1] in SPACES { SecondThird(b[..|b| - 1]); }
  }

  lemma OwnHeader(b: string, rest: seq<string>)
    requires ValidName(b) && '.' !in b
    ensures Read([HeaderText(b)] + rest, b, START) == Read(rest, b, Scan(".", true, map[]))
  {
    PlainKey(b, "", [MCP]);
    assert [MCP] + [b] == [MCP, b];
    HeaderRead(b, rest, b, START);
  }

  lemma SwallowedValue(a: string)
    ensures ReadValue("[" + " " + HeaderText(a)) == None
    ensures ']' in "[" + " " + HeaderText(a)
  {
    var v := "[" + " " + HeaderText(a);
    var t := MCP + "." + a + "]";
    assert v == "[ [" + t;
    assert v[|v| - 1] == ']';
    NestedArray(t);
  }

  lemma ReadOnOne(v: string, l: string, more: seq<string>)
    requires ']' !in v && ']' in v + " " + Clean(l)
    ensures ReadOn(v, [l] + more) == (v + " " + Clean(l), 1)
  {
    assert ([l] + more)[1..] == more;
  }

  lemma SwallowedText(a: string, more: seq<string>)
    requires ValidName(a)
    ensures ReadOn("[", [HeaderText(a)] + more).1 == 1
    ensures ReadValue(ReadOn("[", [HeaderText(a)] + more).0) == None
  {
    ServerLine(a);
    BracketText();
    SwallowedValue(a);
    ReadOnOne("[", HeaderText(a), more);
  }

  lemma SwallowedLine(a: string, b: string, more: seq<string>, st: Scan)
    requires ValidName(a) && st == Scan(".", true, map[])
    ensures Read([Assign("args", "[")] + ([HeaderText(a)] + more), b, st) == Read(more, b, st)
  {
    hide ReadOn, ReadValue, HeaderText, Assign, Clean, Header;
    var rest := [HeaderText(a)] + more;
    var lines := [Assign("args", "[")] + rest;
    OpenLine(rest, b, st);
    SwallowedText(a, more);
    assert lines[2..] == more;
    assert Line(lines, b, st) == (st, 2);
  }

  /** Read whole, b's open array swallows a's header and a's command is taken
      for b's. */
  lemma SwallowedRead(a: string, b: string, u: string, end: seq<string>)
    requires ValidName(a) && ValidName(b) && '.' !in b && (end == [] || end == [""])
    ensures Read(Swallowing(a, b, u) + end, b, START).out == map["command" := Str(u)]
  {
    hide HeaderText, Assign, Read, ValidName, Quote;
    var st := Scan(".", true, map[]);
    var command := [Assign("command", Quote(u))] + end;
    var lines := [Assign("args", "[")] + ([HeaderText(a)] + command);
    assert Swallowing(a, b, u) + end == [HeaderText(b)] + lines;
    OwnHeader(b, lines);
    SwallowedLine(a, b, command, st);
    StringLineRead("command", u, end, b, st);
    var st' := st.(out := map[]["command" := Str(u)]);
    assert end == [""] ==> end == [""] + [];
    BlankLine([], b, st');
    NothingRead(b, st');
  }

  lemma OpenEnd()
    ensures ReadValue("[") == Some(Arr([]))
  {
    BracketText();
    TrimKeeps("[", SPACES);
    assert "["[1..] == "";
  }

  /** With a's table gone the array runs to the end of the file. */
  lemma UnswallowedRead(b: string)
    requires ValidName(b) && '.' !in b
    ensures Read([HeaderText(b), Assign("args", "[")], b, START).out == map["args" := Arr([])]
  {
    var st := Scan(".", true, map[]);
    var lines := [Assign("args", "[")];
    assert [HeaderText(b), Assign("args", "[")] == [HeaderText(b)] + lines;
    OwnHeader(b, lines);
    assert lines + [] == lines;
    OpenLine([], b, st);
    OpenEnd();
    assert Read(lines, b, st) == st.(out := st.out["args" := Arr([])]);
  }

  lemma OwnServerHeader(name: string, other: string)
    requires ValidName(name) && '.' !in name
    ensures ServerHeader(HeaderText(name), other) <==> name == other
  {
    StemPlain(name);
    OwnHeaderWritten(name);
  }

  lemma WordNoHeader(k: string, v: string)
    requires Word(k)
    ensures Header(TrimSpace(Assign(k, v))).None?
  {
    NotHeader(Assign(k, v));
  }

  lemma SwallowedLines(a: string, b: string, u: string)
    requires ValidName(a) && ValidName(b)
    ensures forall l | l in Swallowing(a, b, u) :: OneLine(l)
  {
    hide Clean, Header, Keys, HeaderText, Quote;
    ServerLine(a);
    ServerLine(b);
    QuoteOneLine(u);
  }

  lemma KeepFour(w: string, x: string, y: string, z: string, name: string)
    requires !Skips(w, name, false) && !Skips(x, name, false) && Skips(y, name, false) && Skips(z, name, true)
    ensures Keep([w, x, y, z], name, false) == [w, x]
  {
    KeepCons(z, [], name, true);
    KeepCons(y, [z], name, false);
    KeepCons(x, [y, z], name, false);
    KeepCons(w, [x, y, z], name, false);
    assert [z] + [] == [z] && [y] + [z] == [y, z] && [x] + [y, z] == [x, y, z] && [w] + [x, y, z] == [w, x, y, z];
  }

  lemma SwallowedKeep(a: string, b: string, u: string)
    requires ValidName(a) && ValidName(b) && '.' !in a && '.' !in b && a != b
    ensures Keep(Swallowing(a, b, u), a, false) == [HeaderText(b), Assign("args", "[")]
    ensures HasTable(Swallowing(a, b, u), a)
  {
    OwnServerHeader(a, a);
    OwnServerHeader(b, a);
    OwnHeaderWritten(b);
    WordNoHeader("args", "[");
    WordNoHeader("command", Quote(u));
    KeepFour(HeaderText(b), Assign("args", "["), HeaderText(a), Assign("command", Quote(u)), a);
    assert HeaderText(a) == Swallowing(a, b, u)[2];
  }

  /** Where an array of b's runs over a's header the frame fails: removing a
      changes what is read for b. */
  lemma OpenArrayBreaksFrame(a: string, b: string, u: string, env: map<string, string>)
    requires ValidName(a) && ValidName(b) && '.' !in a && '.' !in b && a != b
    ensures var raw := Join(Swallowing(a, b, u), "\n");
            && !SparesAll(Lines(raw), a, b, START) && Remove(raw, a).Some?
            && Server(Remove(raw, a).value, b, env) != Server(raw, b, env)
  {
    hide HeaderText, Assign, Quote, ValidName, SparesAll, Server, Lines;
    var raw := Join(Swallowing(a, b, u), "\n");
    SwallowedKeep(a, b, u);
    SwallowedLines(a, b, u);
    LinesJoin(Swallowing(a, b, u));
    RemovedLines(raw, a);
    assert Swallowing(a, b, u) + [] == Swallowing(a, b, u);
    SwallowedDiffers(a, b, u, [], raw, Remove(raw, a).value, env);
    if SparesAll(Lines(raw), a, b, START) {
      RemovalFrame(raw, a, b, env);
      assert false;
    }
  }

  /** Where an array of b's runs to the end of the file so does the append:
      writing a takes a's command for b's. */
  lemma OpenEndBreaksAppend(a: string, b: string, u: string, env: map<string, string>)
    requires ValidName(a) && ValidName(b) && '.' !in a && '.' !in b && a != b && u != ""
    ensures var raw := Join([HeaderText(b), Assign("args", "[")], "\n");
            var appended := Append(raw, a, map["command" := Str(u)], env);
            && EndsOpen(Lines(raw), b, START) && appended.0 == Done
            && Server(appended.1, b, env) != Server(raw, b, env)
  {
    hide HeaderText, Assign, Quote, ValidName, Server, EndsOpen, Lines, Block;
    var lines := [HeaderText(b), Assign("args", "[")];
    var raw := Join(lines, "\n");
    var cfg: Cfg := map["command" := Str(u)];
    OpenLines(b);
    LinesJoin(lines);
    NotThere(a, b, raw, env);
    var raw' := Append(raw, a, cfg, env).1;
    AppendedLines(raw, a, cfg);
    CommandBlock(a, u);
    assert lines + ([HeaderText(a), Assign("command", Quote(u))] + [""]) == Swallowing(a, b, u) + [""];
    SwallowedDiffers(a, b, u, [""], raw', raw, env);
    if !EndsOpen(Lines(raw), b, START) {
      StemPlain(a);
      AppendFrame(raw, a, cfg, b, env, env);
      assert false;
    }
  }

  lemma OpenLines(b: string)
    requires ValidName(b)
    ensures OneLine(HeaderText(b)) && OneLine(Assign("args", "["))
  {
    SwallowedLines(b, b, "");
    assert HeaderText(b) == Swallowing(b, b, "")[0] && Assign("args", "[") == Swallowing(b, b, "")[1];
  }

  lemma NotThere(a: string, b: string, raw: string, env: map<string, string>)
    requires ValidName(a) && ValidName(b) && '.' !in a && '.' !in b && a != b
    requires Lines(raw) == [HeaderText(b), Assign("args", "[")]
    ensures forall cfg: Cfg :: Append(raw, a, cfg, env).0 == Done
  {
    hide HeaderText, Assign, Header, Server, ValidName;
    OwnServerHeader(b, a);
    WordNoHeader("args", "[");
    ReaderFindsTables(raw, a, env);
  }

  lemma CommandBlock(a: string, u: string)
    requires u != ""
    ensures Block(a, map["command" := Str(u)]) == [HeaderText(a), Assign("command", Quote(u))]
  {
    hide HeaderText, Assign, Quote;
    var cfg: Cfg := map["command" := Str(u)];
    assert StringAt(cfg, "url") == "" && StringAt(cfg, "command") == u;
    assert ArgsLine(cfg) == [] && TableLines(a, "env", cfg, "env") == [] && TableLines(a, "http_headers", cfg, "headers") == [];
  }

  lemma SwallowedDiffers(a: string, b: string, u: string, end: seq<string>, raw: string, raw': string, env: map<string, string>)
    requires ValidName(a) && ValidName(b) && '.' !in a && '.' !in b && a != b && (end == [] || end == [""])
    requires Lines(raw) == Swallowing(a, b, u) + end && Lines(raw') == [HeaderText(b), Assign("args", "[")]
    ensures Server(raw', b, env) != Server(raw, b, env)
  {
    hide HeaderText, Assign, Read, ValidName, Config;
    SwallowedRead(a, b, u, end);
    UnswallowedRead(b);
    OwnServerHeader(b, b);
    assert Lines(raw)[0] == Swallowing(a, b, u)[0];
    assert HeaderText(b) in Lines(raw) && HeaderText(b) in Lines(raw') by {
      assert Lines(raw')[0] == HeaderText(b) && Swallowing(a, b, u)[0] == HeaderText(b);
    }
    ReaderFindsTables(raw, b, env);
    ReaderFindsTables(raw', b, env);
    CommandRead(map["command" := Str(u)], env);
    CommandRead(map["args" := Arr([])], env);
  }

  lemma CommandRead(out: map<string, Json>, env: map<string, string>)
    ensures "command" in Config(out, env) <==> "command" in out
  {
  }
}
