/** The Go string helpers the modelled code is built on, over sequences of
    bytes (one `char` a byte; white space is the ASCII white space). */
module Text {
  datatype Option<+T> = None | Some(value: T)

  const SPACES: set<char> := {' ', '\t', '\n', '\r', 11 as char, 12 as char}

  function TrimLeft(s: string, cut: set<char>): (r: string)
    ensures |r| <= |s|
    ensures r == [] || r[0] !in cut
  {
    if s != [] && s[0] in cut then TrimLeft(s[1..], cut) else s
  }

  function TrimRight(s: string, cut: set<char>): (r: string)
    ensures |r| <= |s| && r == s[..|r|]
    ensures r == [] || r[|r| - 1] !in cut
  {
    if s != [] && s[|s| - 1] in cut then TrimRight(s[..|s| - 1], cut) else s
  }

  /** strings.Trim(s, cut). */
  function Trim(s: string, cut: set<char>): (r: string)
    ensures |r| <= |s|
  {
    TrimRight(TrimLeft(s, cut), cut)
  }

  /** strings.TrimSpace(s). */
  function TrimSpace(s: string): (r: string)
    ensures |r| <= |s|
  {
    Trim(s, SPACES)
  }

  /** Where c first stands in s, or |s| when it does not. */
  function IndexOf(s: string, c: char): (i: nat)
    ensures i <= |s| && c !in s[..i]
    ensures i < |s| ==> s[i] == c
  {
    if s == [] || s[0] == c then 0
    else
      var i := 1 + IndexOf(s[1..], c);
      assert s[..i] == [s[0]] + s[1..][..i - 1];
      i
  }

  predicate HasPrefix(s: string, p: string) {
    p <= s
  }

  predicate Bounded(s: string, cut: set<char>) {
    s != [] ==> s[0] !in cut && s[|s| - 1] !in cut
  }

  lemma TrimKeeps(s: string, cut: set<char>)
    requires Bounded(s, cut)
    ensures Trim(s, cut) == s
  {
  }

  lemma IndexAt(a: string, c: char, b: string)
    requires c !in a
    ensures IndexOf(a + [c] + b, c) == |a|
  {
    var s := a + [c] + b;
    var i := IndexOf(s, c);
    assert s[|a|] == c;
    assert forall j | 0 <= j < i :: s[..i][j] != c;
    assert forall j | 0 <= j < |a| :: s[j] == a[j];
  }

  lemma IndexAbsent(s: string, c: char)
    requires c !in s
    ensures IndexOf(s, c) == |s|
  {
  }

  lemma {:induction false} TrimLeftChars(s: string, cut: set<char>)
    ensures forall c | c in TrimLeft(s, cut) :: c in s
  {
    if s != "" && s[0] in cut { TrimLeftChars(s[1..], cut); }
  }

  lemma TrimChars(s: string, cut: set<char>)
    ensures forall c | c in Trim(s, cut) :: c in s
  {
    TrimLeftChars(s, cut);
    var t := TrimLeft(s, cut);
    assert forall c | c in TrimRight(t, cut) :: c in t;
  }

  // ---- lines ----

  /** strings.Split(s, "\n"). */
  function Lines(s: string): (ls: seq<string>)
    ensures ls != []
  {
    var i := IndexOf(s, '\n');
    if i == |s| then [s] else [s[..i]] + Lines(s[i + 1..])
  }

  /** strings.Join(ls, sep). */
  function Join(ls: seq<string>, sep: string): string {
    if ls == [] then "" else if |ls| == 1 then ls[0] else ls[0] + sep + Join(ls[1..], sep)
  }

  /** Each line followed by its line end. */
  function Terminated(ls: seq<string>): string {
    if ls == [] then "" else ls[0] + "\n" + Terminated(ls[1..])
  }

  predicate OneLine(s: string) {
    '\n' !in s
  }

  lemma LinesCons(l: string, t: string)
    requires OneLine(l)
    ensures Lines(l + "\n" + t) == [l] + Lines(t)
  {
    var s := l + "\n" + t;
    IndexAt(l, '\n', t);
    assert s == l + ['\n'] + t;
    assert s[..|l|] == l && s[|l| + 1..] == t;
  }

  lemma LinesSingle(l: string)
    requires OneLine(l)
    ensures Lines(l) == [l]
  {
    IndexAbsent(l, '\n');
  }

  lemma {:induction false} JoinLines(s: string)
    ensures Join(Lines(s), "\n") == s
    decreases |s|
  {
    hide IndexOf;
    var i := IndexOf(s, '\n');
    if i < |s| {
      JoinLines(s[i + 1..]);
      assert Lines(s)[1..] == Lines(s[i + 1..]);
      assert s == s[..i] + "\n" + s[i + 1..];
    }
  }

  lemma {:induction false} LinesOneLine(s: string)
    ensures forall l | l in Lines(s) :: OneLine(l)
    decreases |s|
  {
    var i := IndexOf(s, '\n');
    if i < |s| {
      LinesOneLine(s[i + 1..]);
    }
  }

  lemma {:induction false} LinesJoin(ls: seq<string>)
    requires ls != [] && forall l | l in ls :: OneLine(l)
    ensures Lines(Join(ls, "\n")) == ls
  {
    assert OneLine(ls[0]);
    if |ls| == 1 {
      IndexAbsent(ls[0], '\n');
    } else {
      LinesJoin(ls[1..]);
      LinesCons(ls[0], Join(ls[1..], "\n"));
    }
  }

  lemma {:induction false} LinesTerminated(ls: seq<string>)
    requires forall l | l in ls :: OneLine(l)
    ensures Lines(Terminated(ls)) == ls + [""]
  {
    if ls != [] {
      LinesTerminated(ls[1..]);
      assert OneLine(ls[0]);
      LinesCons(ls[0], Terminated(ls[1..]));
    }
  }

  /** Text after a line end starts on a line of its own. */
  lemma {:induction false} LinesAppend(a: string, b: string)
    ensures Lines(a + "\n" + b) == Lines(a) + Lines(b)
    decreases |a|
  {
    hide Lines;
    var i := IndexOf(a, '\n');
    if i == |a| {
      assert a[..|a|] == a;
      LinesCons(a, b);
      LinesSingle(a);
    } else {
      var l, c := a[..i], a[i + 1..];
      assert a == l + "\n" + c;
      LinesCons(l, c);
      LinesAppend(c, b);
      LinesCons(l, c + "\n" + b);
      assert a + "\n" + b == l + "\n" + (c + "\n" + b);
      assert [l] + (Lines(c) + Lines(b)) == [l] + Lines(c) + Lines(b);
    }
  }

  // ---- sort.Strings ----

  /** The byte order of Go strings. */
  predicate Le(a: string, b: string) {
    a == "" || (b != "" && (a[0] < b[0] || (a[0] == b[0] && Le(a[1..], b[1..]))))
  }

  lemma {:induction false} LeOrder(a: string, b: string)
    ensures Le(a, b) || Le(b, a)
    ensures Le(a, b) && Le(b, a) ==> a == b
  {
    if a != "" && b != "" {
      LeOrder(a[1..], b[1..]);
      assert a == [a[0]] + a[1..] && b == [b[0]] + b[1..];
    }
  }

  lemma {:induction false} LeTransitive(a: string, b: string, c: string)
    requires Le(a, b) && Le(b, c)
    ensures Le(a, c)
  {
    if a != "" && b != "" && c != "" && a[0] == b[0] == c[0] {
      LeTransitive(a[1..], b[1..], c[1..]);
    }
  }

  predicate Least(k: string, s: set<string>) {
    k in s && forall j | j in s :: Le(k, j)
  }

  lemma {:induction false} HasLeast(s: set<string>)
    requires s != {}
    ensures exists k :: Least(k, s)
    ensures forall k, j :: Least(k, s) && Least(j, s) ==> k == j
    decreases s
  {
    var x :| x in s;
    if s == {x} {
      LeOrder(x, x);
      assert Least(x, s);
    } else {
      HasLeast(s - {x});
      var k :| Least(k, s - {x});
      LeOrder(x, k);
      if Le(x, k) {
        LeOrder(x, x);
        forall j | j in s ensures Le(x, j) { if j != x { LeTransitive(x, k, j); } }
        assert Least(x, s);
      } else {
        assert Least(k, s);
      }
    }
    forall k, j | Least(k, s) && Least(j, s) ensures k == j { LeOrder(k, j); }
  }

  /** The members of s in ascending order. */
  function SortKeys(s: set<string>): (ks: seq<string>)
    ensures forall k :: k in ks <==> k in s
  {
    if s == {} then []
    else
      HasLeast(s);
      var k :| Least(k, s);
      [k] + SortKeys(s - {k})
  }
}
