/** What Codex files that people write are read as (internal/automation/codex.go):
    strings in either quotes, arrays on one line or on several, inline tables,
    comments behind them, quoted names and tables below a sub-table. */
module CodexByHand {
  import opened Text
  import opened Json
  import opened CodexSyntax
  import opened CodexKeys
  import opened CodexServers
  import opened CodexWriter
  import opened CodexLimits

  // ---- strings ----

  /** "u", escaped, or 'u', as it is. */
  datatype Written = Double(u: string) | Single(u: string)

  predicate WrittenOk(t: Written) {
    t.Single? ==> '\'' !in t.u
  }

  function Source(t: Written): string {
    match t
    case Double(u) => Quote(u)
    case Single(u) => "'" + u + "'"
  }

  lemma SourceEnds(t: Written)
    ensures |Source(t)| >= 2 && Source(t)[0] in QUOTES && Source(t)[|Source(t)| - 1] in QUOTES
  {
  }

  /** A string is read as what stands between its quotes, whatever follows. */
  lemma WrittenRead(t: Written, s: string)
    requires WrittenOk(t)
    ensures ReadString(Source(t) + s) == Some((t.u, TrimRight(s, SPACES)))
  {
    match t
    case Double(u) => QuoteRead(u, s);
    case Single(u) => SingleRead(u, s);
  }

  lemma SingleRead(u: string, s: string)
    requires '\'' !in u
    ensures ReadString("'" + u + "'" + s) == Some((u, TrimRight(s, SPACES)))
  {
    hide IndexOf, TrimRight;
    var q, r := "'" + u + "'", TrimRight(s, SPACES);
    TrimRightAfter(q, s);
    assert TrimLeft(q + s, SPACES) == q + s;
    assert TrimSpace(q + s) == q + r;
    SingleCut(u, r);
  }

  lemma SingleCut(u: string, r: string)
    requires '\'' !in u
    ensures var t := "'" + u + "'" + r;
            t[0] == '\'' && IndexOf(t[1..], '\'') == |u| && t[1..|u| + 1] == u && t[|u| + 2..] == r
  {
    hide IndexOf;
    var t := "'" + u + "'" + r;
    assert t[1..] == u + ['\''] + r;
    IndexAt(u, '\'', r);
  }

  lemma LeadingSpace(s: string)
    ensures ReadString(" " + s) == ReadString(s)
  {
    assert (" " + s)[1..] == s;
    assert TrimSpace(" " + s) == TrimSpace(s);
  }

  // ---- comments ----

  /** Whatever follows, the comment stripper is outside quotes after p. */
  ghost predicate Whole(p: string) {
    forall s :: Kept(p + s, NUL) == |p| + Kept(s, NUL)
  }

  lemma WholeJoin(a: string, b: string)
    requires Whole(a) && Whole(b)
    ensures Whole(a + b)
  {
    hide Kept;
    forall s ensures Kept(a + b + s, NUL) == |a + b| + Kept(s, NUL) {
      assert a + b + s == a + (b + s);
    }
  }

  lemma WholePlain(p: string)
    requires forall c | c in p :: c !in QUOTES && c != '#'
    ensures Whole(p)
  {
    hide Kept;
    forall s ensures Kept(p + s, NUL) == |p| + Kept(s, NUL) { KeptPlain(p, s); }
  }

  lemma WholeWritten(t: Written)
    requires WrittenOk(t)
    ensures Whole(Source(t))
  {
    hide Kept, Quote;
    forall s ensures Kept(Source(t) + s, NUL) == |Source(t)| + Kept(s, NUL) {
      match t
      case Double(u) => KeptQuote(u, s);
      case Single(u) => KeptSingle(u, s);
    }
  }

  lemma KeptSingle(u: string, s: string)
    requires '\'' !in u
    ensures Kept("'" + u + "'" + s, NUL) == |u| + 2 + Kept(s, NUL)
  {
    var t := "'" + u + "'" + s;
    assert t[1..] == u + ("'" + s);
    InsideSingle(u, s);
  }

  lemma {:induction false} InsideSingle(u: string, s: string)
    requires '\'' !in u
    ensures Kept(u + ("'" + s), '\'') == |u| + 1 + Kept(s, NUL)
  {
    var t := u + ("'" + s);
    if u == "" {
      assert t == "'" + s && t[1..] == s;
    } else {
      assert t[1..] == u[1..] + ("'" + s);
      InsideSingle(u[1..], s);
    }
  }

  /** A line, with a comment behind it or not. */
  function Commented(line: string, comment: Option<string>): string {
    match comment
    case None => line
    case Some(c) => line + " # " + c
  }

  lemma CommentDropped(line: string, comment: Option<string>)
    requires line != "" && Bounded(line, SPACES) && Whole(line)
    ensures Clean(Commented(line, comment)) == line
  {
    hide Kept, TrimLeft, TrimRight;
    TrimKeeps(line, SPACES);
    match comment
    case None =>
      assert line + "" == line && Kept("", NUL) == 0 by { KeptNothing(); }
      assert line[..|line|] == line;
    case Some(c) =>
      var all := line + " # " + c;
      assert all == line + (" # " + c);
      KeptComment(c);
      assert all[..|line| + 1] == line + " ";
      TrimSides(line, line);
  }

  lemma KeptNothing()
    ensures Kept("", NUL) == 0
  {
  }

  lemma KeptComment(c: string)
    ensures Kept(" # " + c, NUL) == 1
  {
    var s := " # " + c;
    assert s[1..][0] == '#';
  }

  // ---- values ----

  /** An inline table's key: bare, or a string. */
  datatype Key = Bare(k: string) | Named(t: Written)

  datatype Pair = Pair(key: Key, value: Written)

  /** A value on one line. */
  datatype Value = One(t: Written) | Many(ts: seq<Written>) | Inline(ps: seq<Pair>)

  predicate BareOk(k: string) {
    && k != "" && Bounded(k, SPACES) && k[0] !in {'}', ','}
    && forall c | c in k :: c !in QUOTES && c != '#' && c != '='
  }

  predicate PairOk(p: Pair) {
    WrittenOk(p.value) && match p.key case Bare(k) => BareOk(k) case Named(t) => WrittenOk(t)
  }

  predicate ValueOk(v: Value) {
    match v
    case One(t) => WrittenOk(t)
    case Many(ts) => forall t | t in ts :: WrittenOk(t)
    case Inline(ps) => forall p | p in ps :: PairOk(p)
  }

  function KeyOf(p: Pair): string {
    match p.key case Bare(k) => k case Named(t) => t.u
  }

  function KeySource(key: Key): string {
    match key case Bare(k) => k case Named(t) => Source(t)
  }

  function PairSource(p: Pair): string {
    KeySource(p.key) + " = " + Source(p.value)
  }

  /** The items and the closing bracket. */
  function ManySource(ts: seq<Written>): string {
    if ts == [] then "]" else Source(ts[0]) + (if |ts| == 1 then "]" else ", " + ManySource(ts[1..]))
  }

  /** The pairs and the closing brace. */
  function InlineSource(ps: seq<Pair>): string {
    if ps == [] then "}" else PairSource(ps[0]) + (if |ps| == 1 then " }" else ", " + InlineSource(ps[1..]))
  }

  function ValueSource(v: Value): string {
    match v
    case One(t) => Source(t)
    case Many(ts) => "[" + ManySource(ts)
    case Inline(ps) => "{ " + InlineSource(ps)
  }

  function Us(ts: seq<Written>): seq<Json> {
    seq(|ts|, i requires 0 <= i < |ts| => Str(ts[i].u))
  }

  // ---- arrays on one line ----

  lemma ManyStart(ts: seq<Written>)
    requires ts != []
    ensures ManySource(ts) != "" && ManySource(ts)[0] in QUOTES
  {
    SourceEnds(ts[0]);
  }

  lemma {:induction false} ManyEnd(ts: seq<Written>)
    ensures ManySource(ts) != "" && ManySource(ts)[|ManySource(ts)| - 1] == ']'
  {
    if |ts| > 1 { ManyEnd(ts[1..]); }
  }

  lemma NextItem(t: Written, s: string, out: seq<Json>)
    requires WrittenOk(t)
    ensures ReadItems(Source(t) + s, out) == ReadItems(TrimRight(s, SPACES), out + [Str(t.u)])
  {
    hide Source;
    SourceEnds(t);
    WrittenRead(t, s);
    var cut := {' ', '\t', '\r', '\n', ','};
    assert TrimLeft(Source(t) + s, cut) == Source(t) + s;
  }

  lemma Untrimmed(s: string)
    requires s == "" || s[|s| - 1] !in SPACES
    ensures TrimRight(s, SPACES) == s
  {
  }

  lemma {:induction false} ManyRead(ts: seq<Written>, out: seq<Json>)
    requires forall t | t in ts :: WrittenOk(t)
    ensures ReadItems(ManySource(ts), out) == Some(Arr(out + Us(ts)))
  {
    hide ReadItems, Source, WrittenOk, TrimRight;
    if ts == [] {
      assert out + Us(ts) == out;
      ItemsEnd(out);
      NoItems();
    } else {
      var more := ts[1..];
      assert out + [Str(ts[0].u)] + Us(more) == out + Us(ts);
      ManyRead(more, out + [Str(ts[0].u)]);
      if more == [] {
        NextItem(ts[0], "]", out);
        Untrimmed("]");
      } else {
        NextItem(ts[0], ", " + ManySource(more), out);
        ManyEnd(more);
        Untrimmed(", " + ManySource(more));
        ManyStart(more);
        SkipSeparator(ManySource(more), out + [Str(ts[0].u)]);
      }
    }
  }

  // ---- inline tables ----

  /** The table the pairs make of `out`, a later pair replacing an earlier one. */
  function Filled(out: map<string, Json>, ps: seq<Pair>): map<string, Json> {
    if ps == [] then out else Filled(out, ps[..|ps| - 1])[KeyOf(ps[|ps| - 1]) := Str(ps[|ps| - 1].value.u)]
  }

  lemma {:induction false} FilledFirst(out: map<string, Json>, ps: seq<Pair>)
    requires ps != []
    ensures Filled(out, ps) == Filled(out[KeyOf(ps[0]) := Str(ps[0].value.u)], ps[1..])
  {
    if |ps| > 1 {
      FilledFirst(out, ps[..|ps| - 1]);
      assert ps[..|ps| - 1][1..] == ps[1..][..|ps| - 2];
    }
  }

  ghost predicate HasKey(ps: seq<Pair>, k: string) {
    exists p | p in ps :: KeyOf(p) == k
  }

  /** No later pair has the key of pair i. */
  ghost predicate LastOfKey(ps: seq<Pair>, i: nat)
    requires i < |ps|
  {
    forall j | i < j < |ps| :: KeyOf(ps[j]) != KeyOf(ps[i])
  }

  /** m has the pairs' keys and no other, each with its last value. */
  ghost predicate TableOf(m: map<string, Json>, ps: seq<Pair>) {
    && (forall k :: k in m <==> HasKey(ps, k))
    && (forall i | 0 <= i < |ps| && LastOfKey(ps, i) :: At(m, KeyOf(ps[i])) == Some(Str(ps[i].value.u)))
  }

  lemma {:induction false} FilledKeys(ps: seq<Pair>, k: string)
    ensures k in Filled(map[], ps) <==> HasKey(ps, k)
  {
    hide KeyOf;
    if ps != [] {
      FilledKeys(ps[..|ps| - 1], k);
      assert ps == ps[..|ps| - 1] + [ps[|ps| - 1]];
    }
  }

  lemma {:induction false} FilledLast(ps: seq<Pair>, i: nat)
    requires i < |ps| && LastOfKey(ps, i)
    ensures At(Filled(map[], ps), KeyOf(ps[i])) == Some(Str(ps[i].value.u))
  {
    hide KeyOf;
    if i < |ps| - 1 {
      var front := ps[..|ps| - 1];
      assert KeyOf(ps[|ps| - 1]) != KeyOf(ps[i]) && front[i] == ps[i];
      forall j | i < j < |front| ensures KeyOf(front[j]) != KeyOf(front[i]) { assert KeyOf(ps[j]) != KeyOf(ps[i]); }
      FilledLast(front, i);
    }
  }

  lemma FilledIsTable(ps: seq<Pair>)
    ensures TableOf(Filled(map[], ps), ps)
  {
    hide KeyOf, Filled, HasKey, LastOfKey, At;
    forall k ensures k in Filled(map[], ps) <==> HasKey(ps, k) { FilledKeys(ps, k); }
    forall i | 0 <= i < |ps| && LastOfKey(ps, i) ensures At(Filled(map[], ps), KeyOf(ps[i])) == Some(Str(ps[i].value.u)) {
      FilledLast(ps, i);
    }
  }

  lemma KeyStart(key: Key)
    requires match key case Bare(k) => BareOk(k) case Named(t) => WrittenOk(t)
    ensures KeySource(key) != "" && KeySource(key)[0] !in {' ', '\t', ',', '}'}
  {
    if key.Named? { SourceEnds(key.t); }
  }

  lemma InlineStart(ps: seq<Pair>)
    requires ps != [] && PairOk(ps[0])
    ensures InlineSource(ps) != "" && InlineSource(ps)[0] !in {' ', '\t', ',', '}'}
  {
    hide KeySource;
    KeyStart(ps[0].key);
  }

  lemma {:induction false} InlineEnd(ps: seq<Pair>)
    ensures InlineSource(ps) != "" && InlineSource(ps)[|InlineSource(ps)| - 1] == '}'
  {
    if |ps| > 1 { InlineEnd(ps[1..]); }
  }

  lemma BareKeyRead(k: string, s: string)
    requires BareOk(k)
    ensures ReadKey(k + (" = " + s)) == Some((k, "= " + s))
  {
    hide IndexOf, TrimSpace, ReadString;
    var all := k + (" = " + s);
    assert all[0] == k[0] && k[0] in k;
    assert all == (k + " ") + ['='] + (" " + s);
    IndexAt(k + " ", '=', " " + s);
    assert all[..|k| + 1] == k + " " && all[|k| + 1..] == "= " + s;
    TrimSides(k, k);
  }

  lemma NamedKeyRead(t: Written, s: string)
    requires WrittenOk(t) && s != "" && s[|s| - 1] !in SPACES
    ensures ReadKey(Source(t) + (" = " + s)) == Some((t.u, " = " + s))
  {
    hide Source, ReadString, TrimRight;
    SourceEnds(t);
    WrittenRead(t, " = " + s);
    Untrimmed(" = " + s);
  }

  /** The key before a "=". */
  lemma KeyRead(key: Key, s: string)
    requires match key case Bare(k) => BareOk(k) case Named(t) => WrittenOk(t)
    requires s != "" && s[|s| - 1] !in SPACES
    ensures var r := ReadKey(KeySource(key) + (" = " + s));
            var k := match key case Bare(k) => k case Named(t) => t.u;
            r.Some? && r.value.0 == k && TrimLeft(r.value.1, {' ', '\t'}) == "= " + s
  {
    hide ReadKey, BareOk, WrittenOk, Source;
    match key {
      case Bare(k) => BareKeyRead(k, s);
      case Named(t) => NamedKeyRead(t, s);
    }
    assert (" = " + s)[1..] == "= " + s;
  }

  lemma NextPair(p: Pair, tail: string, out: map<string, Json>)
    requires PairOk(p) && tail != "" && tail[|tail| - 1] !in SPACES
    ensures ReadFields(PairSource(p) + tail, out) == ReadFields(tail, out[KeyOf(p) := Str(p.value.u)])
  {
    hide KeySource, Source, ReadKey, ReadString, WrittenOk, BareOk;
    var s := Source(p.value) + tail;
    assert PairSource(p) + tail == KeySource(p.key) + (" = " + s);
    KeyStart(p.key);
    KeyRead(p.key, s);
    var rest := KeySource(p.key) + (" = " + s);
    assert TrimLeft(rest, {' ', '\t', ','}) == rest;
    assert ("= " + s)[1..] == " " + s;
    LeadingSpace(s);
    WrittenRead(p.value, tail);
    Untrimmed(tail);
  }

  lemma SkipSpace(s: string, cut: string, out: map<string, Json>)
    requires cut == " " || cut == ", "
    ensures ReadFields(cut + s, out) == ReadFields(s, out)
  {
    assert (" " + s)[1..] == s && (", " + s)[1..] == " " + s;
    assert TrimLeft(cut + s, {' ', '\t', ','}) == TrimLeft(s, {' ', '\t', ','});
  }

  lemma NoPairs(out: map<string, Json>)
    ensures ReadFields("}", out) == Some(Obj(out))
  {
  }

  lemma {:induction false} InlineRead(ps: seq<Pair>, out: map<string, Json>)
    requires forall p | p in ps :: PairOk(p)
    ensures ReadFields(InlineSource(ps), out) == Some(Obj(Filled(out, ps)))
  {
    hide ReadFields, PairSource, PairOk, Filled;
    if ps == [] {
      NoPairs(out);
      NoneFilled(out);
    } else {
      var more := ps[1..];
      var out' := out[KeyOf(ps[0]) := Str(ps[0].value.u)];
      InlineRead(more, out');
      FilledFirst(out, ps);
      if more == [] {
        NoneFilled(out');
        NextPair(ps[0], " }", out);
        SkipSpace("}", " ", out');
        assert " " + "}" == " }" && InlineSource(more) == "}" && InlineSource(ps) == PairSource(ps[0]) + " }";
      } else {
        InlineEnd(more);
        assert InlineSource(ps) == PairSource(ps[0]) + (", " + InlineSource(more));
        NextPair(ps[0], ", " + InlineSource(more), out);
        SkipSpace(InlineSource(more), ", ", out');
      }
    }
  }

  lemma NoneFilled(out: map<string, Json>)
    ensures Filled(out, []) == out
  {
  }

  /** The text { k1 = "v1", k2 = 'v2' } reads as the table with those entries, a
      later key replacing an earlier one. */
  lemma InlineTableRead(ps: seq<Pair>) returns (m: map<string, Json>)
    requires forall p | p in ps :: PairOk(p)
    ensures ReadValue("{ " + InlineSource(ps)) == Some(Obj(m)) && TableOf(m, ps)
  {
    hide ReadFields, InlineSource, PairOk, TrimLeft, TrimRight;
    var v := "{ " + InlineSource(ps);
    InlineEnd(ps);
    TrimKeeps(v, SPACES);
    assert v[1..] == " " + InlineSource(ps);
    SkipSpace(InlineSource(ps), " ", map[]);
    InlineRead(ps, map[]);
    FilledIsTable(ps);
    m := Filled(map[], ps);
  }

  /** The text ["a", 'b'] reads as the array of those items. */
  lemma ArrayRead(ts: seq<Written>)
    requires forall t | t in ts :: WrittenOk(t)
    ensures ReadValue("[" + ManySource(ts)) == Some(Arr(Us(ts)))
  {
    hide ReadItems, ManySource, WrittenOk;
    ManyEnd(ts);
    BracketedValue(ManySource(ts));
    ManyRead(ts, []);
    assert [] + Us(ts) == Us(ts);
  }

  lemma TextRead(t: Written)
    requires WrittenOk(t)
    ensures ReadValue(Source(t)) == Some(Str(t.u))
  {
    hide Source, ReadString, TrimLeft, TrimRight, ReadItems, ReadFields;
    SourceEnds(t);
    NoSpaceEnds(Source(t));
    TrimKeeps(Source(t), SPACES);
    assert Source(t) + "" == Source(t);
    WrittenRead(t, "");
  }

  lemma NoSpaceEnds(s: string)
    requires |s| >= 2 && s[0] in QUOTES && s[|s| - 1] in QUOTES
    ensures Bounded(s, SPACES)
  {
  }

  // ---- lines ----

  /** The Json a value is read as. */
  ghost predicate Means(j: Json, v: Value) {
    match v
    case One(t) => j == Str(t.u)
    case Many(ts) => j == Arr(Us(ts))
    case Inline(ps) => j.Obj? && TableOf(j.fields, ps)
  }

  /** A line k = v, with a comment behind it or not. */
  datatype HandLine = HandLine(key: string, value: Value, comment: Option<string>)

  predicate LineOk(l: HandLine) {
    BareOk(l.key) && l.key[0] != '[' && ValueOk(l.value)
  }

  function LineSource(l: HandLine): string {
    Commented(Assign(l.key, ValueSource(l.value)), l.comment)
  }

  lemma ValueRead(v: Value) returns (j: Json)
    requires ValueOk(v)
    ensures ReadValue(ValueSource(v)) == Some(j) && Means(j, v)
  {
    hide ReadValue, ManySource, InlineSource, Source, PairOk, WrittenOk, TableOf;
    match v
    case One(t) =>
      TextRead(t);
      j := Str(t.u);
    case Many(ts) =>
      ArrayRead(ts);
      j := Arr(Us(ts));
    case Inline(ps) =>
      var m := InlineTableRead(ps);
      j := Obj(m);
  }

  lemma {:induction false} WholeMany(ts: seq<Written>)
    requires forall t | t in ts :: WrittenOk(t)
    ensures Whole(ManySource(ts))
  {
    hide Whole, Source, WrittenOk;
    if ts == [] {
      WholePlain("]");
    } else {
      WholeWritten(ts[0]);
      WholePlain("]");
      WholePlain(", ");
      WholeMany(ts[1..]);
      WholeJoin(Source(ts[0]), "]");
      WholeJoin(", ", ManySource(ts[1..]));
      WholeJoin(Source(ts[0]), ", " + ManySource(ts[1..]));
    }
  }

  lemma WholePair(p: Pair)
    requires PairOk(p)
    ensures Whole(PairSource(p))
  {
    hide Whole, Source;
    match p.key {
      case Bare(k) => WholePlain(k);
      case Named(t) => WholeWritten(t);
    }
    WholePlain(" = ");
    WholeWritten(p.value);
    WholeJoin(KeySource(p.key), " = ");
    WholeJoin(KeySource(p.key) + " = ", Source(p.value));
  }

  lemma {:induction false} WholeInline(ps: seq<Pair>)
    requires forall p | p in ps :: PairOk(p)
    ensures Whole(InlineSource(ps))
  {
    hide Whole, PairSource, PairOk;
    if ps == [] {
      WholePlain("}");
    } else {
      WholePair(ps[0]);
      WholePlain(" }");
      WholePlain(", ");
      WholeInline(ps[1..]);
      WholeJoin(PairSource(ps[0]), " }");
      WholeJoin(", ", InlineSource(ps[1..]));
      WholeJoin(PairSource(ps[0]), ", " + InlineSource(ps[1..]));
    }
  }

  /** What a value's source looks like from outside. */
  lemma ValueShape(v: Value)
    requires ValueOk(v)
    ensures Whole(ValueSource(v)) && ValueSource(v) != "" && Bounded(ValueSource(v), SPACES) && !Open(ValueSource(v))
  {
    hide Whole, ManySource, InlineSource, Source, PairOk, WrittenOk;
    match v
    case One(t) =>
      WholeWritten(t);
      SourceEnds(t);
      NoSpaceEnds(Source(t));
    case Many(ts) =>
      WholePlain("[");
      WholeMany(ts);
      WholeJoin("[", ManySource(ts));
      ManyEnd(ts);
      BracketedValue(ManySource(ts));
    case Inline(ps) =>
      WholePlain("{ ");
      WholeInline(ps);
      WholeJoin("{ ", InlineSource(ps));
      InlineEnd(ps);
  }

  lemma LineClean(l: HandLine)
    requires LineOk(l)
    ensures Clean(LineSource(l)) == Assign(l.key, ValueSource(l.value))
    ensures Header(Assign(l.key, ValueSource(l.value))).None?
    ensures CodexServers.Entry(Assign(l.key, ValueSource(l.value))) == Some((l.key, ValueSource(l.value)))
  {
    hide Whole, ValueSource, ValueOk, Clean, Kept, CodexServers.Entry;
    var k, v := l.key, ValueSource(l.value);
    ValueShape(l.value);
    assert k[0] in k && k[|k| - 1] in k;
    WholePlain(k + " = ");
    WholeJoin(k + " = ", v);
    AssignShape(k, v);
    CommentDropped(Assign(k, v), l.comment);
    CutRead(k, v);
    TrimKeeps(k, QUOTES);
  }

  lemma AssignShape(k: string, v: string)
    requires k != "" && k[0] != '[' && k[0] !in SPACES && v != "" && Bounded(v, SPACES)
    ensures var line := Assign(k, v); line != "" && Bounded(line, SPACES) && Header(line).None?
  {
    var line := Assign(k, v);
    assert line[0] == k[0] && line[|line| - 1] == v[|v| - 1];
  }

  /** Such a line stores what it says, inside the server. */
  lemma LineRead(l: HandLine, rest: seq<string>, name: string, st: Scan) returns (j: Json)
    requires LineOk(l) && st.section == "."
    ensures Read([LineSource(l)] + rest, name, st) == Read(rest, name, st.(out := st.out[l.key := j])) && Means(j, l.value)
  {
    hide ValueSource, ValueOk, LineSource, Clean, Header, CodexServers.Entry, ReadValue, Means, BareOk;
    LineClean(l);
    ValueShape(l.value);
    j := ValueRead(l.value);
    var lines := [LineSource(l)] + rest;
    assert lines[0] == LineSource(l) && lines[1..] == rest;
    assert Assign(l.key, ValueSource(l.value)) != "";
    assert Line(lines, name, st) == (st.(out := st.out[l.key := j]), 1);
  }

  function Sources(ls: seq<HandLine>): seq<string> {
    seq(|ls|, i requires 0 <= i < |ls| => LineSource(ls[i]))
  }

  ghost predicate HasLine(ls: seq<HandLine>, k: string) {
    exists l | l in ls :: l.key == k
  }

  /** No later line has the key of line i. */
  ghost predicate LastLine(ls: seq<HandLine>, i: nat)
    requires i < |ls|
  {
    forall j | i < j < |ls| :: ls[j].key != ls[i].key
  }

  /** out holds what the last line of each key says, and what it held besides. */
  ghost predicate Says(out: map<string, Json>, ls: seq<HandLine>, had: map<string, Json>) {
    && (forall k | !HasLine(ls, k) :: At(out, k) == At(had, k))
    && (forall i | 0 <= i < |ls| && LastLine(ls, i) :: ls[i].key in out && Means(out[ls[i].key], ls[i].value))
  }

  lemma SaysFirst(out: map<string, Json>, ls: seq<HandLine>, had: map<string, Json>, j: Json)
    requires ls != [] && Says(out, ls[1..], had[ls[0].key := j]) && Means(j, ls[0].value)
    ensures Says(out, ls, had)
  {
    hide Means, HasLine;
    forall k | !HasLine(ls, k) ensures At(out, k) == At(had, k) { NotLater(ls, k); }
    forall i | 0 <= i < |ls| && LastLine(ls, i) ensures ls[i].key in out && Means(out[ls[i].key], ls[i].value) {
      if i > 0 {
        assert LastLine(ls[1..], i - 1);
      } else {
        OnlyFirst(ls);
        assert At(out, ls[0].key) == Some(j);
      }
    }
  }

  lemma NotLater(ls: seq<HandLine>, k: string)
    requires ls != [] && !HasLine(ls, k)
    ensures !HasLine(ls[1..], k) && ls[0].key != k
  {
    assert ls[0] in ls;
    assert forall l | l in ls[1..] :: l in ls;
  }

  lemma OnlyFirst(ls: seq<HandLine>)
    requires ls != [] && LastLine(ls, 0)
    ensures !HasLine(ls[1..], ls[0].key)
  {
  }

  lemma NothingSaid(had: map<string, Json>)
    ensures Says(had, [], had)
  {
  }

  /** The lines of a server's own table, in any order, with keys said twice. */
  lemma {:induction false} LinesRead(ls: seq<HandLine>, name: string, st: Scan) returns (out: map<string, Json>)
    requires (forall l | l in ls :: LineOk(l)) && st.section == "."
    ensures Read(Sources(ls), name, st) == st.(out := out) && Says(out, ls, st.out)
  {
    hide Read, LineSource, LineOk, Says;
    if ls == [] {
      out := st.out;
      assert Sources(ls) == [];
      NothingRead(name, st);
      NothingSaid(st.out);
    } else {
      assert Sources(ls) == [LineSource(ls[0])] + Sources(ls[1..]);
      var j := LineRead(ls[0], Sources(ls[1..]), name, st);
      out := LinesRead(ls[1..], name, st.(out := st.out[ls[0].key := j]));
      SaysFirst(out, ls, st.out, j);
    }
  }

  // ---- files ----

  predicate OneLineOk(l: HandLine) {
    LineOk(l) && OneLine(LineSource(l))
  }

  function HandFile(name: string, ls: seq<HandLine>): string {
    Join([HeaderText(name)] + Sources(ls), "\n")
  }

  lemma FileRead(name: string, ls: seq<HandLine>, env: map<string, string>) returns (out: map<string, Json>)
    requires ValidName(name) && '.' !in name && forall l | l in ls :: OneLineOk(l)
    ensures Server(HandFile(name, ls), name, env) == Some(Config(out, env)) && Says(out, ls, map[])
  {
    hide Read, LineSource, LineOk, Says, HeaderText, Config, Lines, Keys;
    var lines := [HeaderText(name)] + Sources(ls);
    OwnHeaderWritten(name);
    forall l | l in lines ensures OneLine(l) {
      if l != HeaderText(name) { assert exists i :: 0 <= i < |ls| && l == LineSource(ls[i]) && ls[i] in ls; }
    }
    LinesJoin(lines);
    PlainKey(name, "", [MCP]);
    assert [MCP] + [name] == [MCP, name];
    HeaderRead(name, Sources(ls), name, START);
    EnterOwn(name);
    out := LinesRead(ls, name, Scan(".", true, map[]));
  }

  /** What a server's table written by hand is read as: its command, args, env
      and url are what the last line of that key says, or absent; type is http
      exactly when there is a url. */
  lemma HandServer(name: string, ls: seq<HandLine>, env: map<string, string>) returns (c: Cfg)
    requires ValidName(name) && '.' !in name && forall l | l in ls :: OneLineOk(l)
    ensures Server(HandFile(name, ls), name, env) == Some(c)
    ensures c.Keys <= {"command", "args", "env", "url", "headers", "type"}
    ensures forall k | k in {"command", "args", "env", "url"} :: k in c <==> HasLine(ls, k)
    ensures forall i | 0 <= i < |ls| && LastLine(ls, i) && ls[i].key in {"command", "args", "env", "url"} ::
              ls[i].key in c && Means(c[ls[i].key], ls[i].value)
    ensures "type" in c <==> HasLine(ls, "url")
    ensures "type" in c ==> c["type"] == Str("http")
  {
    hide Server, HandFile, ValidName, OneLineOk, Means, Config, HasLine;
    var out := FileRead(name, ls, env);
    c := Config(out, env);
    MembersAt(out, env);
    forall k ensures k in out <==> HasLine(ls, k) { SaidExactly(out, ls, k); }
    forall k | k in {"command", "args", "env", "url"} ensures At(c, k) == At(out, k) {}
  }

  lemma SaidExactly(out: map<string, Json>, ls: seq<HandLine>, k: string)
    requires Says(out, ls, map[])
    ensures k in out <==> HasLine(ls, k)
  {
    hide Means;
    if HasLine(ls, k) {
      var i := LastOf(ls, k);
      assert ls[i].key in out;
    } else {
      assert At(out, k) == None;
    }
  }

  lemma {:induction false} LastOf(ls: seq<HandLine>, k: string) returns (i: nat)
    requires HasLine(ls, k)
    ensures i < |ls| && ls[i].key == k && LastLine(ls, i)
  {
    var n := |ls| - 1;
    if ls[n].key == k {
      i := n;
    } else {
      var front := ls[..n];
      assert ls == front + [ls[n]];
      i := LastOf(front, k);
      assert ls[i] == front[i];
      forall j | i < j < |ls| ensures ls[j].key != k { if j < n { assert front[j] == ls[j]; } }
    }
  }

  // ---- headers ----

  /** The name of the variable that holds the bearer token. */
  ghost predicate TokenFrom(ls: seq<HandLine>, v: string) {
    v != "" && exists i | 0 <= i < |ls| :: LastLine(ls, i) && ls[i].key == "bearer_token_env_var" && ls[i].value.One? && ls[i].value.t.u == v
  }

  /** The table of headers. */
  ghost predicate HeadersFrom(ls: seq<HandLine>, ps: seq<Pair>) {
    exists i | 0 <= i < |ls| :: LastLine(ls, i) && ls[i].key == "http_headers" && ls[i].value == Inline(ps)
  }

  const BEARER := "Authorization"

  /** The headers of a server's table written by hand: those of its table, and
      the bearer token, taken from the environment or left as a variable. */
  lemma HandHeaders(name: string, ls: seq<HandLine>, env: map<string, string>) returns (c: Cfg, h: map<string, Json>)
    requires ValidName(name) && '.' !in name && forall l | l in ls :: OneLineOk(l)
    ensures Server(HandFile(name, ls), name, env) == Some(c)
    ensures At(c, "headers") == if h == map[] then None else Some(Obj(h))
    ensures forall v | TokenFrom(ls, v) :: At(h, BEARER) == Some(Str("Bearer " + (if v in env && env[v] != "" then env[v] else "${" + v + "}")))
    ensures forall ps | HeadersFrom(ls, ps) :: exists m :: TableOf(m, ps) && forall k | k != BEARER || !exists v :: TokenFrom(ls, v) :: At(h, k) == At(m, k)
    ensures (forall ps :: !HeadersFrom(ls, ps)) ==> forall k | k in h :: k == BEARER && exists v :: TokenFrom(ls, v)
  {
    hide Server, HandFile, ValidName, OneLineOk, Config, TableOf;
    var out := FileRead(name, ls, env);
    c, h := Config(out, env), Headers(out, env);
    MembersAt(out, env);
    TokenRead(ls, out);
    TableRead'(ls, out);
    HeadersAre(out, env);
    forall ps | HeadersFrom(ls, ps)
      ensures exists m :: TableOf(m, ps) && forall k | k != BEARER || !exists v :: TokenFrom(ls, v) :: At(h, k) == At(m, k)
    {
      var m := out["http_headers"].fields;
      assert TableOf(m, ps);
    }
  }

  lemma TokenRead(ls: seq<HandLine>, out: map<string, Json>)
    requires Says(out, ls, map[])
    ensures forall v :: TokenFrom(ls, v) <==> At(out, "bearer_token_env_var") == Some(Str(v)) && v != ""
  {
    hide TableOf, HasLine;
    forall v ensures TokenFrom(ls, v) <==> At(out, "bearer_token_env_var") == Some(Str(v)) && v != "" {
      SaidExactly(out, ls, "bearer_token_env_var");
      if At(out, "bearer_token_env_var") == Some(Str(v)) && v != "" {
        var i := LastOf(ls, "bearer_token_env_var");
        assert Means(out[ls[i].key], ls[i].value);
      }
      forall i, j | 0 <= i < |ls| && 0 <= j < |ls| && LastLine(ls, i) && LastLine(ls, j) && ls[i].key == ls[j].key ensures i == j {}
    }
  }

  lemma TableRead'(ls: seq<HandLine>, out: map<string, Json>)
    requires Says(out, ls, map[])
    ensures forall ps | HeadersFrom(ls, ps) :: "http_headers" in out && out["http_headers"].Obj? && TableOf(out["http_headers"].fields, ps)
    ensures (forall ps :: !HeadersFrom(ls, ps)) ==> !("http_headers" in out && out["http_headers"].Obj?)
  {
    hide TableOf, HasLine;
    SaidExactly(out, ls, "http_headers");
    if "http_headers" in out && out["http_headers"].Obj? {
      var i := LastOf(ls, "http_headers");
      assert Means(out[ls[i].key], ls[i].value) && ls[i].value.Inline?;
      assert HeadersFrom(ls, ls[i].value.ps);
    }
  }

  /** The headers of what the reader met. */
  lemma HeadersAre(out: map<string, Json>, env: map<string, string>)
    ensures var h := Headers(out, env);
            var token := At(out, "bearer_token_env_var");
            && (forall v | token == Some(Str(v)) && v != "" ::
                  At(h, BEARER) == Some(Str("Bearer " + (if v in env && env[v] != "" then env[v] else "${" + v + "}"))))
            && (forall k | k != BEARER || !(exists v :: token == Some(Str(v)) && v != "") ::
                  At(h, k) == if "http_headers" in out && out["http_headers"].Obj? then At(out["http_headers"].fields, k) else None)
  {
    var token := At(out, "bearer_token_env_var");
    forall v | token == Some(Str(v)) && v != ""
      ensures At(Headers(out, env), BEARER) == Some(Str("Bearer " + (if v in env && env[v] != "" then env[v] else "${" + v + "}")))
    {
      assert "Bearer " + ("${" + v + "}") == "Bearer ${" + v + "}";
    }
  }

  // ---- arrays on several lines ----

  /** An item on a line of its own. */
  datatype Item = Item(t: Written, comment: Option<string>)

  function ItemLines(items: seq<Item>): seq<string> {
    seq(|items|, i requires 0 <= i < |items| => "  " + Commented(Source(items[i].t) + ",", items[i].comment))
  }

  /** How many items are read: up to the first with a "]" in it. */
  function Reached(items: seq<Item>): (n: nat)
    ensures n <= |items|
    decreases |items|
  {
    if items == [] then 0 else if ']' in Source(items[0].t) then 1 else 1 + Reached(items[1..])
  }

  /** The items as they are joined to the array's first line. */
  function Joined(items: seq<Item>): string {
    if items == [] then "" else " " + (Source(items[0].t) + ",") + Joined(items[1..])
  }

  function Values(items: seq<Item>): seq<Json> {
    seq(|items|, i requires 0 <= i < |items| => Str(items[i].t.u))
  }

  lemma ItemClean(i: Item)
    requires WrittenOk(i.t)
    ensures Clean("  " + Commented(Source(i.t) + ",", i.comment)) == Source(i.t) + ","
  {
    hide Kept, Source, WrittenOk, Whole, TrimRight;
    var line := Source(i.t) + ",";
    SourceEnds(i.t);
    WholeWritten(i.t);
    WholePlain(",");
    WholeJoin(Source(i.t), ",");
    assert line[0] == Source(i.t)[0];
    CommentDropped(line, i.comment);
    var l := Commented(line, i.comment);
    KeptPlain("  ", l);
    var n := Kept(l, NUL);
    assert ("  " + l)[..n + 2] == "  " + l[..n];
    assert ("  " + l[..n])[1..] == " " + l[..n] && (" " + l[..n])[1..] == l[..n];
    assert TrimLeft("  " + l[..n], SPACES) == TrimLeft(l[..n], SPACES);
  }

  lemma ReadOnLine(v: string, l: string, more: seq<string>)
    requires ']' !in v
    ensures var r := ReadOn(v + " " + Clean(l), more); ReadOn(v, [l] + more) == (r.0, r.1 + 1)
  {
    hide Clean, ReadOn;
    var lines := [l] + more;
    assert lines[0] == l && lines[1..] == more;
    ReadOnFirst(v, lines, v + " " + Clean(l));
  }

  lemma ReadOnFirst(v: string, lines: seq<string>, w: string)
    requires ']' !in v && lines != [] && w == v + " " + Clean(lines[0])
    ensures ReadOn(v, lines) == (ReadOn(w, lines[1..]).0, ReadOn(w, lines[1..]).1 + 1)
  {
    hide Clean;
  }

  lemma ReadOnDone(v: string, lines: seq<string>)
    requires ']' in v
    ensures ReadOn(v, lines) == (v, 0)
  {
  }

  lemma {:induction false} JoinedReadOn(v: string, items: seq<Item>, rest: seq<string>)
    requires ']' !in v && forall i | i in items :: WrittenOk(i.t)
    ensures var n := Reached(items);
            ReadOn(v, ItemLines(items) + (["]"] + rest)) ==
            if Ended(items) then (v + Joined(items[..n]), n) else (v + Joined(items) + " ]", n + 1)
    decreases |items|
  {
    hide Source, Clean, Commented, WrittenOk, ReadOn;
    var lines := ItemLines(items) + (["]"] + rest);
    if items == [] {
      assert lines == ["]"] + rest;
      BracketClean();
      ReadOnLine(v, "]", rest);
      ReadOnDone(v + " " + "]", rest);
      assert v + " " + "]" == v + Joined(items) + " ]";
    } else {
      var x := Source(items[0].t) + ",";
      var w := v + " " + x;
      var more := ItemLines(items[1..]) + (["]"] + rest);
      ItemClean(items[0]);
      assert lines == ["  " + Commented(x, items[0].comment)] + more;
      ReadOnLine(v, "  " + Commented(x, items[0].comment), more);
      if ']' in Source(items[0].t) {
        ReadOnDone(w, more);
        assert items[..1][1..] == [];
        assert v + Joined(items[..1]) == w;
      } else {
        JoinedReadOn(w, items[1..], rest);
        var n := Reached(items[1..]);
        assert items[..n + 1][1..] == items[1..][..n];
        assert w + Joined(items[1..][..n]) == v + Joined(items[..n + 1]);
        assert w + Joined(items[1..]) == v + Joined(items);
      }
    }
  }

  /** The reading ends at an item, before the closing bracket's line. */
  predicate Ended(items: seq<Item>) {
    items != [] && (']' in Source(items[0].t) || Ended(items[1..]))
  }

  lemma BracketClean()
    ensures Clean("]") == "]"
  {
    NoItems();
    TrimKeeps("]", SPACES);
  }

  lemma {:induction false} JoinedEnd(items: seq<Item>, end: string)
    requires end == "" || end == " ]"
    ensures var g := Joined(items) + end; g == "" || g[|g| - 1] !in SPACES
  {
    hide Source;
    if items != [] {
      JoinedEnd(items[1..], end);
      assert Joined(items) + end == " " + (Source(items[0].t) + ",") + (Joined(items[1..]) + end);
    }
  }

  lemma SkipCut(cut: string, s: string, out: seq<Json>)
    requires cut == " " || cut == ","
    ensures ReadItems(cut + s, out) == ReadItems(s, out)
  {
    assert (cut + s)[1..] == s;
  }

  lemma ItemsDone(end: string, out: seq<Json>)
    requires end == "" || end == " ]"
    ensures ReadItems(end, out) == Some(Arr(out))
  {
    assert " ]"[1..] == "]";
  }

  lemma ItemThen(t: Written, tail: string, out: seq<Json>)
    requires WrittenOk(t) && (tail == "" || tail[|tail| - 1] !in SPACES)
    ensures ReadItems(" " + (Source(t) + ",") + tail, out) == ReadItems(tail, out + [Str(t.u)])
  {
    hide ReadItems, Source, WrittenOk, TrimRight;
    assert " " + (Source(t) + ",") + tail == " " + (Source(t) + ("," + tail));
    SkipCut(" ", Source(t) + ("," + tail), out);
    NextItem(t, "," + tail, out);
    Untrimmed("," + tail);
    SkipCut(",", tail, out + [Str(t.u)]);
  }

  lemma JoinedNone(end: string)
    ensures Joined([]) + end == end
  {
  }

  lemma JoinedCons(items: seq<Item>, end: string)
    requires items != []
    ensures Joined(items) + end == " " + (Source(items[0].t) + ",") + (Joined(items[1..]) + end)
  {
    hide Source;
  }

  lemma {:induction false} JoinedRead(items: seq<Item>, end: string, out: seq<Json>)
    requires (end == "" || end == " ]") && forall i | i in items :: WrittenOk(i.t)
    ensures ReadItems(Joined(items) + end, out) == Some(Arr(out + Values(items)))
    decreases |items|
  {
    hide ReadItems, Source, WrittenOk, Joined;
    if items == [] {
      JoinedNone(end);
      assert out + Values(items) == out;
      ItemsDone(end, out);
    } else {
      var t, more := items[0].t, items[1..];
      JoinedEnd(more, end);
      JoinedCons(items, end);
      ItemThen(t, Joined(more) + end, out);
      JoinedRead(more, end, out + [Str(t.u)]);
      assert out + [Str(t.u)] + Values(more) == out + Values(items);
    }
  }

  lemma JoinedValue(items: seq<Item>, end: string)
    requires (end == "" || end == " ]") && forall i | i in items :: WrittenOk(i.t)
    ensures ReadValue("[" + Joined(items) + end) == Some(Arr(Values(items)))
  {
    hide ReadItems, Joined, WrittenOk, TrimLeft, TrimRight;
    var g := Joined(items) + end;
    var v := "[" + g;
    assert "[" + Joined(items) + end == v;
    JoinedEnd(items, end);
    TrimKeeps(v, SPACES);
    assert v[1..] == g;
    JoinedRead(items, end, []);
    assert [] + Values(items) == Values(items);
  }

  /** An array with each item on its own line, behind which comments may stand,
      is read up to the first item with a "]" in it; so as all its items exactly
      when no item but the last has one. */
  lemma ManyLinesRead(items: seq<Item>, rest: seq<string>)
    requires forall i | i in items :: WrittenOk(i.t)
    ensures var v := ReadValue(ReadOn("[", ItemLines(items) + (["]"] + rest)).0);
            && v == Some(Arr(Values(items)[..Reached(items)]))
            && (v == Some(Arr(Values(items))) <==> forall i | 0 <= i < |items| - 1 :: ']' !in Source(items[i].t))
  {
    hide ReadValue, Joined, Source, WrittenOk, ItemLines, ReadOn, Reached, Ended, Values;
    var n := Reached(items);
    JoinedReadOn("[", items, rest);
    JoinedValue(items[..n], "");
    JoinedValue(items, " ]");
    ValuesUpTo(items, n);
    assert "[" + Joined(items[..n]) + "" == "[" + Joined(items[..n]);
    ReachedAll(items);
    assert Values(items)[..|items|] == Values(items);
  }

  lemma ValuesUpTo(items: seq<Item>, n: nat)
    requires n <= |items|
    ensures |Values(items)| == |items| && Values(items[..n]) == Values(items)[..n]
  {
  }

  lemma {:induction false} ReachedAll(items: seq<Item>)
    ensures !Ended(items) ==> Reached(items) == |items|
    ensures Reached(items) == |items| <==> forall i | 0 <= i < |items| - 1 :: ']' !in Source(items[i].t)
  {
    hide Source;
    if items != [] {
      ReachedAll(items[1..]);
      if |items| > 1 && ']' !in Source(items[0].t) {
        assert forall i | 0 <= i < |items| - 2 :: items[1..][i] == items[i + 1];
        assert forall i | 1 <= i < |items| - 1 :: items[i] == items[1..][i - 1];
      }
    }
  }

  // ---- names and tables ----

  /** A quoted name, dots and all, is one key of the header. */
  lemma QuotedName(n: string, other: string)
    requires '"' !in n && '#' !in n
    ensures ServerHeader("[mcp_servers.\"" + n + "\"]", other) <==> n == other
  {
    hide Header, Keys, TrimSpace;
    var inner := MCP + "." + ("\"" + n + "\"");
    assert "[mcp_servers.\"" + n + "\"]" == "[" + inner + "]";
    assert forall c | c in inner :: c != '#';
    assert inner[0] == 'm';
    BracketedKeys(inner);
    McpPlain();
    PlainKey(MCP, "\"" + n + "\"", []);
    assert [] + [MCP] == [MCP];
    QuotedKey(n, [MCP]);
    assert [MCP] + [n] == [MCP, n];
  }

  lemma BracketedKeys(inner: string)
    requires inner != "" && inner[0] != '[' && '#' !in inner
    ensures Header(TrimSpace("[" + inner + "]")) == Keys(inner, [])
  {
    hide Keys, TrimLeft, TrimRight, IndexOf;
    var line := "[" + inner + "]";
    assert line[|line| - 1] == ']' && line[..|line|] == line && line[1] == inner[0];
    TrimKeeps(line, SPACES);
    IndexAbsent(line, '#');
    assert line[..|line| - 1] == "[" + inner && ("[" + inner)[1..] == inner;
  }

  lemma QuotedKey(n: string, keys: seq<string>)
    requires '"' !in n
    ensures Keys("\"" + n + "\"", keys) == Some(keys + [n])
  {
    hide IndexOf;
    var t := "\"" + n + "\"";
    assert TrimLeft(t, {' ', '\t', '.'}) == t;
    assert t[1..] == n + ['"'] + "";
    IndexAt(n, '"', "");
    assert t[1..|n| + 1] == n && t[|n| + 2..] == "";
  }

  /** The args of a server on several lines. */
  lemma ManyLinesFile(name: string, items: seq<Item>, env: map<string, string>)
    requires ValidName(name) && '.' !in name
    requires forall i | i in items :: WrittenOk(i.t) && ']' !in Source(i.t) && OneLine("  " + Commented(Source(i.t) + ",", i.comment))
    ensures Server(Join([HeaderText(name), "args = ["] + (ItemLines(items) + ["]"]), "\n"), name, env)
         == Some(map["args" := Arr(Values(items))])
  {
    hide Read, HeaderText, Lines, Keys, ReadOn, ReadValue, Source, Commented, Config, Values;
    var tail := ItemLines(items) + ["]"];
    var lines := [HeaderText(name), "args = ["] + tail;
    var st := Scan(".", true, map[]);
    OwnHeaderWritten(name);
    forall l | l in lines ensures OneLine(l) {}
    LinesJoin(lines);
    assert lines == [HeaderText(name)] + (["args = ["] + tail);
    OwnHeader(name, ["args = ["] + tail);
    assert Assign("args", "[") == "args = [";
    OpenLine(tail, name, st);
    assert tail == ItemLines(items) + (["]"] + []);
    NotEnded(items);
    JoinedReadOn("[", items, []);
    JoinedValue(items, " ]");
    var st' := st.(out := map["args" := Arr(Values(items))]);
    assert map[]["args" := Arr(Values(items))] == st'.out;
    ReadFirstLine(["args = ["] + tail, name, st, st', 1 + |tail|);
    ArgsOnly(Arr(Values(items)), env);
  }

  lemma ReadFirstLine(lines: seq<string>, name: string, st: Scan, st': Scan, n: nat)
    requires lines != [] && Line(lines, name, st) == (st', n) && n == |lines|
    ensures Read(lines, name, st) == st'
  {
    hide Line;
    assert lines[n..] == [];
  }

  lemma {:induction false} NotEnded(items: seq<Item>)
    requires forall i | i in items :: ']' !in Source(i.t)
    ensures !Ended(items) && Reached(items) == |items|
  {
    hide Source;
    if items != [] { NotEnded(items[1..]); }
  }

  lemma ArgsOnly(v: Json, env: map<string, string>)
    ensures Config(map["args" := v], env) == map["args" := v]
  {
  }

  /** Lines in a table below a sub-table of the server say nothing. */
  lemma DeepTableSilent(name: string, a: string, b: string, ls: seq<HandLine>, st: Scan)
    requires ValidName(name) && '.' !in name && NameChars(a) && NameChars(b) && a != "" && b != "" && '.' !in a && '.' !in b
    requires forall l | l in ls :: LineOk(l)
    ensures Read([HeaderText(name + "." + (a + "." + b))] + Sources(ls), name, st).out == st.out
  {
    hide Read, HeaderText, Keys, NameChars, LineSource, LineOk, Enter;
    var dotted := name + "." + (a + "." + b);
    DeepKeys(name, a, b);
    HeaderRead(dotted, Sources(ls), name, st);
    EnterDeep(st, name, a, b);
    SilentLines(ls, name, Enter(st, [MCP, name, a, b], name));
  }

  lemma DeepKeys(name: string, a: string, b: string)
    requires ValidName(name) && '.' !in name && NameChars(a) && NameChars(b) && a != "" && b != "" && '.' !in a && '.' !in b
    ensures var dotted := name + "." + (a + "." + b); NameChars(dotted) && Keys(dotted, [MCP]) == Some([MCP, name, a, b])
  {
    hide Keys;
    PlainKey(name, a + "." + b, [MCP]);
    PlainKey(a, b, [MCP] + [name]);
    PlainKey(b, "", [MCP] + [name] + [a]);
    assert [MCP] + [name] + [a] + [b] == [MCP, name, a, b];
    NameCharsJoin(a, ".");
    NameCharsJoin(a + ".", b);
    NameCharsJoin(name, ".");
    NameCharsJoin(name + ".", a + "." + b);
  }

  lemma EnterDeep(st: Scan, name: string, a: string, b: string)
    ensures Enter(st, [MCP, name, a, b], name) == Scan("-", true, st.out)
  {
  }

  lemma {:induction false} SilentLines(ls: seq<HandLine>, name: string, st: Scan)
    requires (forall l | l in ls :: LineOk(l)) && st.section == "-"
    ensures Read(Sources(ls), name, st) == st
  {
    hide LineSource, LineOk, Clean, Header, Assign, ValueSource;
    if ls != [] {
      var lines := Sources(ls);
      LineClean(ls[0]);
      assert lines[0] == LineSource(ls[0]) && lines[1..] == Sources(ls[1..]);
      assert Line(lines, name, st) == (st, 1);
      SilentLines(ls[1..], name, st);
    }
  }

  /** A value that is no string, array or table (a number, a flag) says nothing. */
  lemma OtherValueSilent(k: string, v: string, rest: seq<string>, name: string, st: Scan)
    requires BareOk(k) && k[0] != '[' && st.section == "."
    requires v != "" && Bounded(v, SPACES) && v[0] !in {'[', '{'} && forall c | c in v :: c !in QUOTES && c != '#'
    ensures Read([k + " = " + v] + rest, name, st) == Read(rest, name, st)
  {
    hide Kept, Read, ReadValue, BareOk;
    assert Assign(k, v) == k + " = " + v;
    BareShape(k);
    assert forall c | c in k + " = " + v :: c !in QUOTES && c != '#';
    KeptPlain(k + " = " + v, "");
    KeptNothing();
    assert k + " = " + v + "" == k + " = " + v;
    AssignLine(k, v, rest, name, st);
    OtherValue(v);
  }

  lemma BareShape(k: string)
    requires BareOk(k)
    ensures k != "" && Bounded(k, SPACES) && '=' !in k && forall c | c in k :: c !in QUOTES && c != '#'
  {
  }

  lemma OtherValue(v: string)
    requires v != "" && Bounded(v, SPACES) && v[0] !in {'[', '{', '"', '\''}
    ensures ReadValue(v) == None
  {
    TrimKeeps(v, SPACES);
  }

  /** A line in doubled brackets (an array of tables) is no header: the reader
      and the remover go on in the table they were in. */
  lemma DoubledBrackets(n: string, rest: seq<string>, name: string, st: Scan, skip: bool)
    requires forall c | c in n :: c !in QUOTES && c != '#' && c != '='
    ensures var line := "[[" + n + "]]";
            && Read([line] + rest, name, st) == Read(rest, name, st)
            && Keep([line] + rest, name, skip) == (if skip then [] else [line]) + Keep(rest, name, skip)
  {
    hide Kept, Keys, Read, Keep;
    var line := "[[" + n + "]]";
    assert forall c | c in line :: c == '[' || c == ']' || c in n;
    KeptPlain(line, "");
    KeptNothing();
    assert line + "" == line && line[..|line|] == line;
    assert line[|line| - 1] == ']' && line[..2] == "[[";
    TrimKeeps(line, SPACES);
    IndexAbsent(line, '=');
    var lines := [line] + rest;
    assert lines[1..] == rest;
    assert Header(line).None? && CodexServers.Entry(line) == None;
    assert Line(lines, name, st) == (st, 1);
    ReadPast(lines, name, st);
    KeepCons(line, rest, name, skip);
  }

  lemma ReadPast(lines: seq<string>, name: string, st: Scan)
    requires lines != [] && Line(lines, name, st) == (st, 1)
    ensures Read(lines, name, st) == Read(lines[1..], name, st)
  {
    hide Line;
  }

  // ---- escapes and empty arrays ----

  /** A byte's escape may be written in either case. */
  lemma HexAnyCase(n: nat, hi: char, lo: char, s: string)
    requires n < 256 && DigitOf(n / 16, hi) && DigitOf(n % 16, lo)
    ensures Unescape(['\\', 'x', hi, lo] + s) == Cons(n as char, Unescape(s))
  {
    hide HexValue, DigitOf;
    var t := ['\\', 'x', hi, lo] + s;
    assert t[4..] == s && t[1] == 'x' && t[2] == hi && t[3] == lo;
    DigitRead(n / 16, hi);
    DigitRead(n % 16, lo);
  }

  lemma DigitRead(n: nat, c: char)
    requires DigitOf(n, c)
    ensures HexValue(c) == Some(n)
  {
    if c == "0123456789abcdef"[n] {
      if n < 10 { assert c == "0123456789"[n]; } else { assert c == "abcdef"[n - 10]; }
    } else {
      assert n >= 10;
      assert c == "ABCDEF"[n - 10];
    }
  }

  predicate DigitOf(n: nat, c: char) {
    n < 16 && (c == "0123456789abcdef"[n] || c == "0123456789ABCDEF"[n])
  }

  lemma OnlyArgs(out: Cfg, ls: seq<HandLine>)
    requires ls == [HandLine("args", Many([]), None)] && Says(out, ls, map[])
    ensures out == map["args" := Arr([])]
  {
    hide Means;
    EmptyArgsLine();
    assert LastLine(ls, 0);
    forall k | k != "args" ensures k !in out {
      assert !HasLine(ls, k);
      assert At(out, k) == At(map[], k);
    }
  }

  lemma EmptyArgsLine()
    ensures OneLineOk(HandLine("args", Many([]), None))
    ensures Means(Arr([]), Many([])) && forall j | Means(j, Many([])) :: j == Arr([])
  {
    hide Kept;
    assert LineSource(HandLine("args", Many([]), None)) == "args = []";
  }

  /** An empty array of arguments goes out as null: put back as null it is the
      same server, put back as an empty array it is refused. */
  lemma EmptyArgsBack(name: string, env: map<string, string>)
    requires ValidName(name) && '.' !in name
    ensures var raw := HandFile(name, [HandLine("args", Many([]), None)]);
            && PutBack(raw, name, map["args" := Null], env) == (Done, raw)
            && PutBack(raw, name, map["args" := Arr([])], env) == (Exists, raw)
  {
    hide Server, HandFile;
    var ls := [HandLine("args", Many([]), None)];
    EmptyArgsLine();
    var out := FileRead(name, ls, env);
    assert out == map["args" := Arr([])] by { OnlyArgs(out, ls); }
    ArgsOnly(Arr([]), env);
    NilArgs();
  }

  lemma NilArgs()
    ensures Marshalled(Obj(map["args" := Arr([])])) == Obj(map["args" := Null])
  {
  }
}
