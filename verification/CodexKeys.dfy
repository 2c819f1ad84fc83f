/** The keys of the table rows the writer makes: what becomes of a key that is
    quoted, written and cut out of its line again. */
module CodexKeys {
  import opened Text
  import opened Json
  import opened CodexSyntax

  /** The keys a table row gives back as they are. */
  predicate KeyOk(k: string) {
    '=' !in k && Escape(k) == k && Bounded(k, {'\''})
  }

  lemma {:induction false} EscapePlain(k: string)
    ensures |Escape(k)| >= |k|
    ensures Escape(k) == k ==> '"' !in k && '\\' !in k
  {
    if k != "" {
      EscapePlain(k[1..]);
      LetterRead(k[0]);
      if Escape(k) == k {
        assert |EscapeChar(k[0])| == 1;
        assert Escape(k)[1..] == Escape(k[1..]) == k[1..];
      }
    }
  }

  lemma {:induction false} EscapeHasEqual(k: string)
    ensures '=' in k <==> '=' in Escape(k)
  {
    if k != "" {
      EscapeHasEqual(k[1..]);
      if Hex(k[0]) { HexRead(k[0] as int); }
      LetterRead(k[0]);
    }
  }

  predicate EqualFree(m: map<string, Json>) {
    forall k | k in m :: '=' !in k
  }

  /** The key a row is read back with. */
  function RowKey(k: string): string {
    Trim(Quote(k), QUOTES)
  }

  lemma KeyReturns(k: string)
    requires KeyOk(k)
    ensures RowKey(k) == k
  {
    EscapePlain(k);
    assert Quote(k) == "\"" + k + "\"";
    TrimQuoted(k);
  }

  lemma TrimQuoted(k: string)
    requires Bounded(k, QUOTES)
    ensures Trim("\"" + k + "\"", QUOTES) == k
  {
    var q := "\"" + k + "\"";
    assert q[1..] == k + "\"";
    if k == "" {
      assert q[1..] == "\"" && q[1..][1..] == "";
      assert TrimLeft(q, QUOTES) == TrimLeft(q[1..], QUOTES) == TrimLeft(q[1..][1..], QUOTES) == "";
    } else {
      var r := k + "\"";
      assert q[1..] == r && r[..|k|] == k && r[|k|] == '"' && r[0] == k[0];
      assert TrimLeft(q, QUOTES) == TrimLeft(r, QUOTES) == r;
      assert TrimRight(r, QUOTES) == TrimRight(k, QUOTES) == k;
    }
  }

  // ---- keys that all come back ----

  function Slashes(s: string): nat {
    if s == "" then 0 else (if s[0] == '\\' then 1 else 0) + Slashes(s[1..])
  }

  lemma {:induction false} SlashesJoin(a: string, b: string)
    ensures Slashes(a + b) == Slashes(a) + Slashes(b)
  {
    if a == "" {
      assert a + b == b;
    } else {
      assert (a + b)[1..] == a[1..] + b;
      SlashesJoin(a[1..], b);
    }
  }

  lemma {:induction false} SlashesTrimLeft(s: string)
    ensures Slashes(TrimLeft(s, QUOTES)) == Slashes(s)
  {
    if s != "" && s[0] in QUOTES { SlashesTrimLeft(s[1..]); }
  }

  lemma {:induction false} SlashesTrimRight(s: string)
    ensures Slashes(TrimRight(s, QUOTES)) == Slashes(s)
  {
    if s != "" && s[|s| - 1] in QUOTES {
      SlashesTrimRight(s[..|s| - 1]);
      SlashesJoin(s[..|s| - 1], [s[|s| - 1]]);
      assert s == s[..|s| - 1] + [s[|s| - 1]];
    }
  }

  lemma SlashesChar(c: char)
    ensures EscapeChar(c) == [c] || Slashes(EscapeChar(c)) > Slashes([c])
  {
    LetterRead(c);
    if Letter(c) != NUL {
      assert EscapeChar(c)[1..] == [Letter(c)];
      if c == '\\' { assert Slashes(['\\']) == 1; }
    } else if Hex(c) {
      HexRead(c as int);
      assert Slashes(EscapeChar(c)) >= 1;
    }
  }

  lemma {:induction false} SlashesEscape(k: string)
    ensures Slashes(Escape(k)) >= Slashes(k)
    ensures Escape(k) != k ==> Slashes(Escape(k)) > Slashes(k)
  {
    if k != "" {
      SlashesEscape(k[1..]);
      SlashesChar(k[0]);
      SlashesJoin(EscapeChar(k[0]), Escape(k[1..]));
      SlashesJoin([k[0]], k[1..]);
      assert k == [k[0]] + k[1..];
    }
  }

  lemma TrimmedBounds(s: string, cut: set<char>)
    ensures Bounded(Trim(s, cut), cut)
  {
    var t := TrimLeft(s, cut);
    var r := TrimRight(t, cut);
    if r != "" { assert r[0] == t[0]; }
  }

  /** A key that Quote escapes comes back with more backslashes. */
  lemma MoreSlashes(k: string)
    requires Escape(k) != k
    ensures Slashes(RowKey(k)) > Slashes(k) && Escape(RowKey(k)) != RowKey(k)
  {
    hide Escape, TrimLeft, TrimRight;
    var q := Quote(k);
    SlashesTrimLeft(q);
    SlashesTrimRight(TrimLeft(q, QUOTES));
    SlashesEscape(k);
    SlashesJoin("\"" + Escape(k), "\"");
    SlashesJoin("\"", Escape(k));
    assert Slashes("\"") == 0;
    EscapePlain(RowKey(k));
    NoSlashes(RowKey(k));
  }

  lemma {:induction false} NoSlashes(s: string)
    ensures Slashes(s) > 0 ==> '\\' in s
  {
    if s != "" { NoSlashes(s[1..]); }
  }

  function Heavier(m: map<string, Json>, k: string): set<string> {
    set j | j in m && Slashes(j) >= Slashes(k)
  }

  /** So where every key comes back as a key none is escaped: above each such
      key there would be one with more backslashes. */
  lemma {:induction false} NoneEscaped(m: map<string, Json>, k: string)
    requires k in m && forall j | j in m :: RowKey(j) in m
    ensures Escape(k) == k
    decreases |Heavier(m, k)|
  {
    hide Escape, RowKey, Slashes;
    if Escape(k) != k {
      MoreSlashes(k);
      var more := Heavier(m, RowKey(k));
      assert k in Heavier(m, k) && k !in more;
      assert more <= Heavier(m, k) - {k};
      Fewer(more, Heavier(m, k) - {k});
      NoneEscaped(m, RowKey(k));
      assert false;
    }
  }

  lemma {:induction false} Fewer(a: set<string>, b: set<string>)
    requires a <= b
    ensures |a| <= |b|
    decreases a
  {
    if a != {} {
      var x :| x in a;
      Fewer(a - {x}, b - {x});
    }
  }

  /** Some row is read back under the key x. */
  predicate Returned(x: string, m: map<string, Json>) {
    exists k | k in m :: x == RowKey(k)
  }

  /** Of keys that all come back, none is changed: one that Quote escapes would
      come back with more backslashes, and so would the one with the most; and
      a key comes back with no quote at its ends. */
  lemma KeysReturn(m: map<string, Json>)
    requires EqualFree(m) && forall x :: x in m <==> Returned(x, m)
    ensures forall k | k in m :: KeyOk(k)
  {
    hide RowKey, Escape;
    forall k | k in m ensures RowKey(k) in m { assert Returned(RowKey(k), m); }
    forall k | k in m ensures Escape(k) == k {
      NoneEscaped(m, k);
    }
    forall k | k in m ensures Bounded(k, {'\''}) {
      assert Returned(k, m);
      var j :| j in m && k == RowKey(j);
      RowKeyBounded(j);
    }
  }

  lemma RowKeyBounded(k: string)
    ensures Bounded(RowKey(k), {'\''})
  {
    TrimmedBounds(Quote(k), QUOTES);
  }
}
