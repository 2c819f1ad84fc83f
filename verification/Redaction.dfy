/** Secrets kept out of the audit log (internal/audit/audit.go): what a change
    looked like before and after, redacted together. Names are ASCII. */
module Redaction {
  import opened Text
  import opened Json

  type Fields = map<string, Json>

  const MASK := "***"
  const MASK_OLD := "*** (c\U{0169})"
  const MASK_NEW := "*** (m\U{1EDB}i)"

  function Squeezed(name: string): string {
    if name == "" then ""
    else
      var c := name[0];
      (if c == '_' || c == '-' then "" else if 'A' <= c <= 'Z' then [((c as int) + 32) as char] else [c]) + Squeezed(name[1..])
  }

  predicate EndsWith(s: string, suffix: string) {
    |suffix| <= |s| && s[|s| - |suffix|..] == suffix
  }

  /** isSecret. */
  predicate IsSecret(name: string) {
    SecretWord(Squeezed(name))
  }

  /** The words that make a name secret alone, and at its end. */
  const WHOLES: seq<string> := ["password", "token", "secret", "apikey", "authorization", "cookie", "credentials", "dsn", "heartbeatpath"]
  const ENDINGS: seq<string> := ["token", "secret", "hash", "apikey", "password", "privatekey", "accesskey", "credentials", "dsn"]

  predicate SecretWord(n: string) {
    n in WHOLES || exists suffix <- ENDINGS :: EndsWith(n, suffix)
  }

  lemma {:induction false} SqueezedJoin(a: string, b: string)
    ensures Squeezed(a + b) == Squeezed(a) + Squeezed(b)
  {
    if a == "" {
      assert a + b == b;
    } else {
      assert (a + b)[0] == a[0] && (a + b)[1..] == a[1..] + b;
      SqueezedJoin(a[1..], b);
    }
  }

  /** Underscores and dashes do not matter. */
  lemma SecretSpelling(a: string, b: string)
    ensures IsSecret(a + "_" + b) <==> IsSecret(a + b)
    ensures IsSecret(a + "-" + b) <==> IsSecret(a + b)
  {
    hide Squeezed, SecretWord;
    SqueezedJoin(a, b);
    SqueezedJoin(a + "_", b);
    SqueezedJoin(a, "_");
    SqueezedJoin(a + "-", b);
    SqueezedJoin(a, "-");
    SqueezedDash();
    assert Squeezed(a + "_" + b) == Squeezed(a + b) == Squeezed(a + "-" + b);
  }

  lemma SqueezedDash()
    ensures Squeezed("_") == "" && Squeezed("-") == ""
  {
  }

  /** The same letters in lower case. */
  function Lowered(name: string): string {
    if name == "" then "" else [if 'A' <= name[0] <= 'Z' then ((name[0] as int) + 32) as char else name[0]] + Lowered(name[1..])
  }

  lemma {:induction false} SqueezedLowered(name: string)
    ensures Squeezed(Lowered(name)) == Squeezed(name)
  {
    if name != "" { SqueezedLowered(name[1..]); }
  }

  /** Letter case does not matter. */
  lemma SecretCase(name: string)
    ensures IsSecret(Lowered(name)) <==> IsSecret(name)
  {
    hide Squeezed, SecretWord;
    SqueezedLowered(name);
  }

  lemma {:induction false} SqueezedPlain(w: string)
    requires forall c | c in w :: 'a' <= c <= 'z'
    ensures Squeezed(w) == w
  {
    if w != "" {
      assert w[0] in w && w == [w[0]] + w[1..];
      assert forall c | c in w[1..] :: c in w;
      SqueezedPlain(w[1..]);
    }
  }

  lemma PlainWords()
    ensures forall w, c | (w in WHOLES || w in ENDINGS) && c in w :: 'a' <= c <= 'z'
  {
  }

  lemma Ending(before: string, i: nat)
    requires i < |ENDINGS|
    ensures IsSecret(before + ENDINGS[i])
  {
    hide Squeezed;
    var w := ENDINGS[i];
    assert w in ENDINGS;
    PlainWords();
    SqueezedPlain(w);
    SqueezedJoin(before, w);
    var n := Squeezed(before + w);
    assert n[|n| - |w|..] == w;
    assert EndsWith(n, w) && w in ENDINGS;
  }

  /** Names that end in one of these are secret, whatever stands before. */
  lemma SecretEndings(before: string)
    ensures IsSecret(before + "token") && IsSecret(before + "secret") && IsSecret(before + "hash")
    ensures IsSecret(before + "apikey") && IsSecret(before + "password") && IsSecret(before + "privatekey")
    ensures IsSecret(before + "accesskey") && IsSecret(before + "credentials") && IsSecret(before + "dsn")
  {
    hide IsSecret;
    Ending(before, 0);
    Ending(before, 1);
    Ending(before, 2);
    Ending(before, 3);
    Ending(before, 4);
    Ending(before, 5);
    Ending(before, 6);
    Ending(before, 7);
    Ending(before, 8);
  }

  /** So are these names, but not just any. */
  lemma SecretNames()
    ensures IsSecret("authorization") && IsSecret("cookie") && IsSecret("heartbeatpath")
    ensures !IsSecret("inputtokens") && !IsSecret("command")
  {
    hide Squeezed;
    PlainWords();
    assert WHOLES[4] == "authorization" && WHOLES[5] == "cookie" && WHOLES[8] == "heartbeatpath";
    SqueezedPlain("authorization");
    SqueezedPlain("cookie");
    SqueezedPlain("heartbeatpath");
    Unlisted("inputtokens");
    Unlisted("command");
  }

  lemma Unlisted(n: string)
    requires n == "inputtokens" || n == "command"
    ensures !IsSecret(n)
  {
    hide Squeezed;
    SqueezedPlain(n);
    forall suffix | suffix in ENDINGS ensures !EndsWith(n, suffix) { UnlistedEnd(n, suffix); }
    forall w | w in WHOLES ensures n != w { UnlistedWhole(n, w); }
  }

  lemma UnlistedEnd(n: string, suffix: string)
    requires (n == "inputtokens" || n == "command") && suffix in ENDINGS
    ensures !EndsWith(n, suffix)
  {
  }

  lemma UnlistedWhole(n: string, w: string)
    requires (n == "inputtokens" || n == "command") && w in WHOLES
    ensures n != w
  {
    assert n[0] == 'i' || n[1] == 'o';
  }

  predicate Masked(s: string) {
    MASK <= s
  }

  /** secretSet. */
  predicate SecretSet(v: Json) {
    v.Str? && v.s != "" && !Masked(v.s)
  }

  /** Two set secrets that are not the same. */
  predicate Differ(v: Json, w: Json) {
    SecretSet(v) && SecretSet(w) && v != w
  }

  /** What redact leaves under a secret name. */
  function Mask(v: Json): Json {
    if v.Null? || v.Bool? || (v.Str? && !SecretSet(v)) then v else Str(MASK)
  }

  /** redact. */
  function Redacted(m: Fields): Fields
    decreases Obj(m), 0
  {
    map k | k in m :: if IsSecret(k) then Mask(m[k]) else RedactedValue(m[k])
  }

  /** redactValue. */
  function RedactedValue(v: Json): Json
    decreases v, 1
  {
    if v.Obj? then Obj(Redacted(v.fields))
    else if v.Arr? then Arr(seq(|v.items|, i requires 0 <= i < |v.items| => RedactedValue(v.items[i])))
    else v
  }

  /** markChanged: what b and a become. */
  function MarkedBefore(b: Fields, a: Fields): Fields
    decreases Obj(b)
  {
    map k | k in b ::
      if k !in a then b[k]
      else if b[k].Obj? then (if a[k].Obj? then Obj(MarkedBefore(b[k].fields, a[k].fields)) else b[k])
      else if IsSecret(k) && Differ(a[k], b[k]) then Str(MASK_OLD) else b[k]
  }

  function MarkedAfter(b: Fields, a: Fields): Fields
    decreases Obj(a)
  {
    map k | k in a ::
      if k !in b then a[k]
      else if b[k].Obj? then (if a[k].Obj? then Obj(MarkedAfter(b[k].fields, a[k].fields)) else a[k])
      else if IsSecret(k) && Differ(a[k], b[k]) then Str(MASK_NEW) else a[k]
  }

  /** snapshotPair; None is a nil map. */
  function SnapshotPair(before: Option<Fields>, after: Option<Fields>): (Option<Fields>, Option<Fields>) {
    match (before, after)
    case (Some(b), Some(a)) => (Some(Redacted(MarkedBefore(b, a))), Some(Redacted(MarkedAfter(b, a))))
    case (Some(b), None) => (Some(Redacted(b)), None)
    case (None, Some(a)) => (None, Some(Redacted(a)))
    case (None, None) => (None, None)
  }

  // ---- nothing secret survives ----

  /** Nothing, a flag, an empty string, or one already masked. */
  predicate Covered(v: Json) {
    v.Null? || v.Bool? || (v.Str? && (v.s == "" || MASK <= v.s))
  }

  lemma MaskCovers(v: Json)
    ensures Covered(Mask(v)) && (Mask(v) == v <==> Covered(v)) && (!Covered(v) ==> Mask(v) == Str(MASK))
  {
  }

  /** No object in v, at any depth, holds a secret: what stands under a secret
      name is covered. */
  ghost predicate Safe(v: Json) {
    && (v.Obj? ==> forall k | k in v.fields :: if IsSecret(k) then Covered(v.fields[k]) else Safe(v.fields[k]))
    && (v.Arr? ==> forall i | 0 <= i < |v.items| :: Safe(v.items[i]))
  }

  lemma {:induction false} RedactedSafe(v: Json)
    ensures Safe(RedactedValue(v))
    decreases v
  {
    hide IsSecret;
    if v.Obj? {
      var r := Redacted(v.fields);
      forall k | k in r ensures if IsSecret(k) then Covered(r[k]) else Safe(r[k]) {
        if IsSecret(k) { MaskCovers(v.fields[k]); } else { RedactedSafe(v.fields[k]); }
      }
    } else if v.Arr? {
      var r := RedactedValue(v).items;
      forall i | 0 <= i < |r| ensures Safe(r[i]) {
        RedactedSafe(v.items[i]);
      }
    }
  }

  /** redact changes nothing exactly when there is no secret left to hide. */
  lemma {:induction false} RedactedFixed(v: Json)
    ensures RedactedValue(v) == v <==> Safe(v)
    decreases v
  {
    hide IsSecret;
    if v.Obj? {
      var r := Redacted(v.fields);
      forall k | k in v.fields && !IsSecret(k) ensures r[k] == v.fields[k] <==> Safe(v.fields[k]) {
        RedactedFixed(v.fields[k]);
      }
      forall k | k in v.fields && IsSecret(k) ensures r[k] == v.fields[k] <==> Covered(v.fields[k]) {
        MaskCovers(v.fields[k]);
      }
      if Safe(v) {
        assert r == v.fields;
      } else {
        var k :| k in v.fields && !(if IsSecret(k) then Covered(v.fields[k]) else Safe(v.fields[k]));
        assert r[k] != v.fields[k];
      }
    } else if v.Arr? {
      var r := RedactedValue(v).items;
      forall i | 0 <= i < |r| ensures r[i] == v.items[i] <==> Safe(v.items[i]) {
        RedactedFixed(v.items[i]);
      }
      if Safe(v) {
        assert r == v.items;
      } else {
        var i :| 0 <= i < |v.items| && !Safe(v.items[i]);
        assert r[i] != v.items[i];
      }
    }
  }

  /** Redacting again changes nothing; no key is gained or lost. */
  lemma RedactedTwice(m: Fields)
    ensures Redacted(Redacted(m)) == Redacted(m) && Redacted(m).Keys == m.Keys
  {
    RedactedSafe(Obj(m));
    RedactedFixed(Obj(Redacted(m)));
  }

  /** After snapshotPair no unmasked secret is left on either side, and each
      side is nil, and has its keys, as before. */
  lemma PairSafe(before: Option<Fields>, after: Option<Fields>)
    ensures var (b, a) := SnapshotPair(before, after);
            && (b.Some? <==> before.Some?) && (a.Some? <==> after.Some?)
            && (b.Some? ==> Safe(Obj(b.value)) && b.value.Keys == before.value.Keys)
            && (a.Some? ==> Safe(Obj(a.value)) && a.value.Keys == after.value.Keys)
  {
    hide IsSecret;
    if before.Some? {
      var b := if after.Some? then MarkedBefore(before.value, after.value) else before.value;
      assert RedactedValue(Obj(b)) == Obj(Redacted(b));
      RedactedSafe(Obj(b));
    }
    if after.Some? {
      var a := if before.Some? then MarkedAfter(before.value, after.value) else after.value;
      assert RedactedValue(Obj(a)) == Obj(Redacted(a));
      RedactedSafe(Obj(a));
    }
  }

  // ---- a change of a secret shows ----

  /** What the two sides show of one key. */
  lemma ShownAt(b: Fields, a: Fields, k: string)
    ensures k in b ==> Redacted(MarkedBefore(b, a))[k] ==
                       if IsSecret(k) then (if k in a && Differ(a[k], b[k]) then Str(MASK_OLD) else Mask(b[k]))
                       else if k in a && b[k].Obj? && a[k].Obj? then Obj(Redacted(MarkedBefore(b[k].fields, a[k].fields)))
                       else RedactedValue(b[k])
    ensures k in a ==> Redacted(MarkedAfter(b, a))[k] ==
                       if IsSecret(k) then (if k in b && Differ(a[k], b[k]) then Str(MASK_NEW) else Mask(a[k]))
                       else if k in b && b[k].Obj? && a[k].Obj? then Obj(Redacted(MarkedAfter(b[k].fields, a[k].fields)))
                       else RedactedValue(a[k])
  {
    hide IsSecret;
    assert Masked(MASK_OLD) && Masked(MASK_NEW);
  }

  lemma ShownKeys(b: Fields, a: Fields)
    ensures Redacted(MarkedBefore(b, a)).Keys == b.Keys
    ensures Redacted(MarkedAfter(b, a)).Keys == a.Keys
  {
  }

  /** The value at a path of keys through objects. */
  function Lookup(m: Fields, path: seq<string>): Option<Json>
    decreases |path|
  {
    if path == [] then Some(Obj(m))
    else if path[0] !in m then None
    else if |path| == 1 then Some(m[path[0]])
    else if m[path[0]].Obj? then Lookup(m[path[0]].fields, path[1..])
    else None
  }

  lemma {:induction false} LookupStep(m: Fields, path: seq<string>)
    requires |path| > 1
    ensures Lookup(m, path) == if path[0] in m && m[path[0]].Obj? then Lookup(m[path[0]].fields, path[1..]) else None
  {
  }

  /** Two set secrets at one path, none of whose outer names is secret, are
      shown alike exactly when they are the same. */
  lemma {:induction false} ChangeShows(b: Fields, a: Fields, path: seq<string>)
    requires path != [] && IsSecret(path[|path| - 1]) && forall i | 0 <= i < |path| - 1 :: !IsSecret(path[i])
    requires Lookup(b, path).Some? && SecretSet(Lookup(b, path).value)
    requires Lookup(a, path).Some? && SecretSet(Lookup(a, path).value)
    ensures var (shownB, shownA) := SnapshotPair(Some(b), Some(a));
            if Lookup(b, path) == Lookup(a, path)
            then Lookup(shownB.value, path) == Lookup(shownA.value, path) == Some(Str(MASK))
            else Lookup(shownB.value, path) == Some(Str(MASK_OLD)) && Lookup(shownA.value, path) == Some(Str(MASK_NEW))
    decreases |path|
  {
    hide IsSecret, Redacted, MarkedBefore, MarkedAfter;
    var k := path[0];
    ShownKeys(b, a);
    ShownAt(b, a, k);
    if |path| > 1 {
      assert !IsSecret(k);
      LookupStep(b, path);
      LookupStep(a, path);
      ChangeShows(b[k].fields, a[k].fields, path[1..]);
      LookupStep(Redacted(MarkedBefore(b, a)), path);
      LookupStep(Redacted(MarkedAfter(b, a)), path);
    }
  }

  // ---- what is shown of everything else ----

  datatype Step = Member(k: string) | Index(i: nat)

  /** The value at a path through objects and arrays. */
  function ValueAt(v: Json, path: seq<Step>): Option<Json>
    decreases |path|
  {
    if path == [] then Some(v)
    else
      match path[0]
      case Member(k) => if v.Obj? && k in v.fields then ValueAt(v.fields[k], path[1..]) else None
      case Index(i) => if v.Arr? && i < |v.items| then ValueAt(v.items[i], path[1..]) else None
  }

  predicate Open(path: seq<Step>) {
    forall i | 0 <= i < |path| :: path[i].Member? ==> !IsSecret(path[i].k)
  }

  /** Where no name on the way is secret redaction changes nothing: a value that
      is no object or array stays, an object keeps its names and an array its
      length, and nothing is added. */
  lemma {:induction false} OpenShown(v: Json, path: seq<Step>)
    requires Open(path)
    ensures ValueAt(RedactedValue(v), path) == match ValueAt(v, path) case None => None case Some(x) => Some(RedactedValue(x))
    decreases |path|
  {
    hide IsSecret;
    if path != [] {
      var step := path[0];
      assert step.Member? ==> !IsSecret(step.k);
      if step.Member? && v.Obj? && step.k in v.fields {
        OpenShown(v.fields[step.k], path[1..]);
      } else if step.Index? && v.Arr? && step.i < |v.items| {
        OpenShown(v.items[step.i], path[1..]);
      }
    }
  }

  lemma LeafShown(v: Json)
    ensures !v.Obj? && !v.Arr? ==> RedactedValue(v) == v
    ensures v.Obj? ==> RedactedValue(v).Obj? && RedactedValue(v).fields.Keys == v.fields.Keys
    ensures v.Arr? ==> RedactedValue(v).Arr? && |RedactedValue(v).items| == |v.items|
    ensures v.Obj? ==> forall k | k in v.fields && k in RedactedValue(v).fields && IsSecret(k) ::
              RedactedValue(v).fields[k] == if Covered(v.fields[k]) then v.fields[k] else Str(MASK)
  {
    hide IsSecret, Mask;
    if v.Obj? {
      var r := RedactedValue(v).fields;
      assert r == Redacted(v.fields);
      forall k | k in v.fields && k in r && IsSecret(k) ensures r[k] == if Covered(v.fields[k]) then v.fields[k] else Str(MASK) {
        MaskCovers(v.fields[k]);
        assert r[k] == Mask(v.fields[k]);
      }
    }
  }

  /** At a path of keys none of whose outer names is secret, what the pair shows
      of a value that is no object is what redaction alone shows, but for two set
      secrets that differ. */
  lemma {:induction false} PairShown(b: Fields, a: Fields, path: seq<string>)
    requires path != [] && forall i | 0 <= i < |path| - 1 :: !IsSecret(path[i])
    ensures var (shownB, shownA) := SnapshotPair(Some(b), Some(a));
            var lb, la := Lookup(b, path), Lookup(a, path);
            var differ := IsSecret(path[|path| - 1]) && lb.Some? && la.Some? && Differ(lb.value, la.value);
            && (lb.Some? && !lb.value.Obj? && !differ ==> Lookup(shownB.value, path) == Lookup(Redacted(b), path))
            && (la.Some? && !la.value.Obj? && !differ ==> Lookup(shownA.value, path) == Lookup(Redacted(a), path))
    decreases |path|
  {
    hide IsSecret, Redacted, MarkedBefore, MarkedAfter, RedactedValue;
    var k := path[0];
    ShownKeys(b, a);
    ShownAt(b, a, k);
    AloneAt(b, k);
    AloneAt(a, k);
    if |path| > 1 {
      assert !IsSecret(k);
      LookupStep(b, path);
      LookupStep(a, path);
      LookupStep(Redacted(b), path);
      LookupStep(Redacted(a), path);
      LookupStep(Redacted(MarkedBefore(b, a)), path);
      LookupStep(Redacted(MarkedAfter(b, a)), path);
      if k in b && k in a && b[k].Obj? && a[k].Obj? {
        PairShown(b[k].fields, a[k].fields, path[1..]);
      }
    } else {
      if k in b && k in a { DifferTurned(b[k], a[k]); }
    }
  }

  lemma AloneAt(m: Fields, k: string)
    ensures k in Redacted(m) <==> k in m
    ensures k in m ==> Redacted(m)[k] == if IsSecret(k) then Mask(m[k]) else RedactedValue(m[k])
    ensures k in m && m[k].Obj? ==> RedactedValue(m[k]) == Obj(Redacted(m[k].fields))
  {
    hide IsSecret;
  }

  // ---- and nothing else does ----

  /** Redacted alone, v and w look the same. */
  ghost predicate Alike(v: Json, w: Json)
    decreases v
  {
    if v.Obj? && w.Obj? then
      && v.fields.Keys == w.fields.Keys
      && forall k | k in v.fields :: if IsSecret(k) then MaskedAlike(v.fields[k], w.fields[k]) else Alike(v.fields[k], w.fields[k])
    else if v.Arr? && w.Arr? then
      |v.items| == |w.items| && forall i | 0 <= i < |v.items| :: Alike(v.items[i], w.items[i])
    else v == w
  }

  /** Under a secret name: the same, or both hidden. */
  predicate MaskedAlike(v: Json, w: Json) {
    v == w || (Hidden(v) && Hidden(w))
  }

  predicate Hidden(v: Json) {
    SecretSet(v) || v.Num? || v.Arr? || v.Obj?
  }

  /** Two changes that are alike on both sides and that differ in the same secrets. */
  ghost predicate PairsAlike(b: Fields, a: Fields, b': Fields, a': Fields)
    decreases Obj(b)
  {
    && Alike(Obj(b), Obj(b')) && Alike(Obj(a), Obj(a'))
    && forall k | k in b && k in a && k in b' && k in a' ::
         if IsSecret(k) then Differ(b[k], a[k]) <==> Differ(b'[k], a'[k])
         else b[k].Obj? && a[k].Obj? && b'[k].Obj? && a'[k].Obj? ==>
           PairsAlike(b[k].fields, a[k].fields, b'[k].fields, a'[k].fields)
  }

  lemma {:induction false} RedactedAlike(v: Json, w: Json)
    requires Alike(v, w)
    ensures RedactedValue(v) == RedactedValue(w)
    decreases v
  {
    hide IsSecret;
    if v.Obj? {
      forall k | k in v.fields && !IsSecret(k) ensures RedactedValue(v.fields[k]) == RedactedValue(w.fields[k]) {
        RedactedAlike(v.fields[k], w.fields[k]);
      }
      assert Redacted(v.fields) == Redacted(w.fields);
    } else if v.Arr? {
      forall i | 0 <= i < |v.items| ensures RedactedValue(v.items[i]) == RedactedValue(w.items[i]) {
        RedactedAlike(v.items[i], w.items[i]);
      }
    }
  }

  lemma AlikeAt(m: Fields, m': Fields, k: string)
    requires Alike(Obj(m), Obj(m')) && k in m
    ensures k in m'
    ensures IsSecret(k) ==> MaskedAlike(m[k], m'[k])
    ensures !IsSecret(k) ==> Alike(m[k], m'[k]) && (m[k].Obj? <==> m'[k].Obj?)
  {
    hide IsSecret;
  }

  lemma AlikeKeys(m: Fields, m': Fields)
    requires Alike(Obj(m), Obj(m'))
    ensures m.Keys == m'.Keys
  {
    hide IsSecret;
  }

  lemma PairsAlikeAt(b: Fields, a: Fields, b': Fields, a': Fields, k: string)
    requires PairsAlike(b, a, b', a') && k in b && k in a && k in b' && k in a'
    ensures IsSecret(k) ==> (Differ(b[k], a[k]) <==> Differ(b'[k], a'[k]))
    ensures !IsSecret(k) && b[k].Obj? && a[k].Obj? && b'[k].Obj? && a'[k].Obj? ==>
              PairsAlike(b[k].fields, a[k].fields, b'[k].fields, a'[k].fields)
  {
    hide IsSecret, Alike;
  }

  /** What is logged depends on no secret beyond which of them changed. */
  lemma {:induction false} OnlyChangeShows(b: Fields, a: Fields, b': Fields, a': Fields)
    requires PairsAlike(b, a, b', a')
    ensures SnapshotPair(Some(b), Some(a)) == SnapshotPair(Some(b'), Some(a'))
    decreases Obj(b)
  {
    hide IsSecret, Redacted, MarkedBefore, MarkedAfter, Alike, RedactedValue, Differ;
    var rb, rb' := Redacted(MarkedBefore(b, a)), Redacted(MarkedBefore(b', a'));
    var ra, ra' := Redacted(MarkedAfter(b, a)), Redacted(MarkedAfter(b', a'));
    AlikeKeys(b, b');
    AlikeKeys(a, a');
    ShownKeys(b, a);
    ShownKeys(b', a');
    forall k | k in b || k in a ensures (k in b ==> rb[k] == rb'[k]) && (k in a ==> ra[k] == ra'[k]) {
      ShownAt(b, a, k);
      ShownAt(b', a', k);
      if k in b { AlikeAt(b, b', k); }
      if k in a { AlikeAt(a, a', k); }
      if k in b && k in a { PairsAlikeAt(b, a, b', a', k); }
      if IsSecret(k) {
        if k in b { MaskAlike(b[k], b'[k]); }
        if k in a { MaskAlike(a[k], a'[k]); }
        if k in b && k in a { DifferTurned(a[k], b[k]); DifferTurned(a'[k], b'[k]); }
      } else if k in b && k in a && b[k].Obj? && a[k].Obj? {
        OnlyChangeShows(b[k].fields, a[k].fields, b'[k].fields, a'[k].fields);
      } else {
        if k in b { RedactedAlike(b[k], b'[k]); }
        if k in a { RedactedAlike(a[k], a'[k]); }
      }
    }
    assert rb == rb' && ra == ra';
  }

  lemma MaskAlike(v: Json, w: Json)
    requires MaskedAlike(v, w)
    ensures Mask(v) == Mask(w)
  {
  }

  lemma DifferNotObj(v: Json, w: Json)
    ensures Differ(v, w) ==> v.Str? && w.Str?
  {
  }

  lemma DifferTurned(v: Json, w: Json)
    ensures Differ(v, w) <==> Differ(w, v)
  {
  }

  // ---- the loops ----

  method Redact(m: Fields) returns (r: Fields)
    ensures r == Redacted(m)
    decreases Obj(m), 0
  {
    hide IsSecret, Mask;
    r := m;
    var keys := m.Keys;
    while keys != {}
      invariant keys <= m.Keys == r.Keys
      invariant forall k | k in m :: r[k] == if k in keys then m[k] else Redacted(m)[k]
      decreases keys
    {
      var k :| k in keys;
      keys := keys - {k};
      if IsSecret(k) {
        r := r[k := Mask(r[k])];
      } else {
        var v := RedactValue(r[k]);
        r := r[k := v];
      }
    }
  }

  method RedactValue(v: Json) returns (r: Json)
    ensures r == RedactedValue(v)
    decreases v, 1
  {
    if v.Obj? {
      var m := Redact(v.fields);
      return Obj(m);
    }
    if !v.Arr? {
      return v;
    }
    var items := [];
    for i := 0 to |v.items|
      invariant items == RedactedValue(v).items[..i]
    {
      var e := RedactValue(v.items[i]);
      items := items + [e];
    }
    r := Arr(items);
  }

  lemma MarkedKeys(b: Fields, a: Fields)
    ensures MarkedBefore(b, a).Keys == b.Keys && MarkedAfter(b, a).Keys == a.Keys
    ensures forall k | k in b && k !in a :: MarkedBefore(b, a)[k] == b[k]
    ensures forall k | k in a && k !in b :: MarkedAfter(b, a)[k] == a[k]
  {
    hide IsSecret;
  }

  lemma MarkedAt(b: Fields, a: Fields, k: string)
    requires k in b && k in a
    ensures MarkedBefore(b, a)[k] ==
            if b[k].Obj? && a[k].Obj? then Obj(MarkedBefore(b[k].fields, a[k].fields))
            else if IsSecret(k) && Differ(a[k], b[k]) then Str(MASK_OLD) else b[k]
    ensures MarkedAfter(b, a)[k] ==
            if b[k].Obj? && a[k].Obj? then Obj(MarkedAfter(b[k].fields, a[k].fields))
            else if IsSecret(k) && Differ(a[k], b[k]) then Str(MASK_NEW) else a[k]
  {
    hide IsSecret;
  }

  /** On the way from one map to another: keys are still to do. */
  ghost predicate Midway(m: Fields, from: Fields, to: Fields, keys: set<string>) {
    m.Keys == from.Keys == to.Keys && forall k | k in m :: m[k] == if k in keys then from[k] else to[k]
  }

  lemma MidwayStep(m: Fields, from: Fields, to: Fields, keys: set<string>, k: string)
    requires Midway(m, from, to, keys)
    ensures k in m ==> Midway(m[k := to[k]], from, to, keys - {k})
    ensures k !in m || to[k] == m[k] ==> Midway(m, from, to, keys - {k})
  {
  }

  lemma MidwayDone(m: Fields, from: Fields, to: Fields)
    requires Midway(m, from, to, {})
    ensures m == to
  {
  }

  method MarkChanged(b: Fields, a: Fields) returns (mb: Fields, ma: Fields)
    ensures mb == MarkedBefore(b, a) && ma == MarkedAfter(b, a)
    decreases Obj(a)
  {
    hide IsSecret, Differ, MarkedBefore, MarkedAfter;
    ghost var toB, toA := MarkedBefore(b, a), MarkedAfter(b, a);
    MarkedKeys(b, a);
    mb, ma := b, a;
    var keys := a.Keys;
    while keys != {}
      invariant keys <= a.Keys
      invariant Midway(mb, b, toB, keys) && Midway(ma, a, toA, keys)
      decreases keys
    {
      var k :| k in keys;
      if k in b { MarkedAt(b, a, k); }
      MidwayStep(mb, b, toB, keys, k);
      MidwayStep(ma, a, toA, keys, k);
      keys := keys - {k};
      if k !in mb {
        continue;
      }
      if mb[k].Obj? {
        DifferNotObj(ma[k], mb[k]);
        if ma[k].Obj? {
          var ib, ia := MarkChanged(mb[k].fields, ma[k].fields);
          mb, ma := mb[k := Obj(ib)], ma[k := Obj(ia)];
        }
        continue;
      }
      if IsSecret(k) && Differ(ma[k], mb[k]) {
        mb, ma := mb[k := Str(MASK_OLD)], ma[k := Str(MASK_NEW)];
      }
    }
    MidwayDone(mb, b, toB);
    MidwayDone(ma, a, toA);
  }
}
