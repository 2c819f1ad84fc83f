/** Searching the library (internal/api/automation.go, filterLibrary): the
    result, and how many results each value of each filter would give. */
module Facets {
  import opened Text

  datatype Item = Item(name: string, description: string, area: string, category: string, risk: string, tags: seq<string>, source: string)

  datatype Query = Query(q: string, area: string, category: string, tag: string, risk: string)

  datatype Filter = NoFilter | Area | Category | Risk | Tag

  datatype TagCount = TagCount(tag: string, count: nat)

  const LISTED: nat := 40

  /** strings.ToLower, of ASCII. */
  function Lower(s: string): string {
    if s == "" then ""
    else [if 'A' <= s[0] <= 'Z' then ((s[0] as int) + 32) as char else s[0]] + Lower(s[1..])
  }

  predicate Contains(s: string, sub: string) {
    sub <= s || (s != "" && Contains(s[1..], sub))
  }

  function Lowered(tags: seq<string>): seq<string> {
    seq(|tags|, i requires 0 <= i < |tags| => Lower(tags[i]))
  }

  predicate Found(it: Item, q: string) {
    q == "" || Contains(Lower(it.name), q) || Contains(Lower(it.description), q) || q in it.tags
  }

  /** matches: it passes every filter but skip. */
  predicate Matches(it: Item, query: Query, skip: Filter) {
    && Found(it, Lower(TrimSpace(query.q)))
    && (skip.Area? || query.area == "" || it.area == query.area)
    && (skip.Category? || query.category == "" || it.category == query.category)
    && (skip.Risk? || query.risk == "" || it.risk == query.risk)
    && (skip.Tag? || Lower(query.tag) == "" || Lower(query.tag) in Lowered(it.tags))
  }

  function Matching(list: seq<Item>, query: Query, skip: Filter): seq<Item> {
    if list == [] then []
    else (if Matches(list[0], query, skip) then [list[0]] else []) + Matching(list[1..], query, skip)
  }

  function Value(it: Item, f: Filter): string {
    match f
    case Area => it.area
    case Category => it.category
    case Risk => it.risk
    case _ => ""
  }

  /** The query with one filter set. */
  function With(query: Query, f: Filter, v: string): Query {
    match f
    case Area => query.(area := v)
    case Category => query.(category := v)
    case Risk => query.(risk := v)
    case Tag => query.(tag := v)
    case NoFilter => query
  }

  // ---- what a search finds ----

  lemma {:induction false} LowerIs(s: string)
    ensures |Lower(s)| == |s|
    ensures forall i | 0 <= i < |s| :: Lower(s)[i] == if 'A' <= s[i] <= 'Z' then ((s[i] as int) + 32) as char else s[i]
  {
    if s != "" { LowerIs(s[1..]); }
  }

  /** sub stands in s from i on. */
  ghost predicate StandsAt(s: string, sub: string, i: nat) {
    i + |sub| <= |s| && s[i..i + |sub|] == sub
  }

  ghost predicate Stands(s: string, sub: string) {
    exists i: nat :: StandsAt(s, sub, i)
  }

  lemma {:induction false} ContainsExactly(s: string, sub: string)
    ensures Contains(s, sub) <==> Stands(s, sub)
  {
    if sub <= s {
      assert StandsAt(s, sub, 0);
    } else if s != "" {
      ContainsExactly(s[1..], sub);
      if i: nat :| StandsAt(s[1..], sub, i) { assert StandsAt(s, sub, i + 1); }
      assert StandsAt(s, sub, 0) <==> sub <= s;
      if i: nat :| i > 0 && StandsAt(s, sub, i) { assert StandsAt(s[1..], sub, i - 1); }
    }
  }

  /** An item is in the result exactly when the search text, trimmed and letter
      case aside, stands in its name or description or is one of its tags, and
      each filter that is set has its value, letter case aside for a tag. */
  lemma FoundExactly(it: Item, query: Query)
    ensures var q := Lower(TrimSpace(query.q));
            Matches(it, query, NoFilter) <==>
            && (q == "" || Stands(Lower(it.name), q) || Stands(Lower(it.description), q) || q in it.tags)
            && (query.area != "" ==> it.area == query.area)
            && (query.category != "" ==> it.category == query.category)
            && (query.risk != "" ==> it.risk == query.risk)
            && (query.tag != "" ==> exists t :: t in it.tags && Lower(t) == Lower(query.tag))
  {
    hide Lower, TrimSpace, Contains, Stands, Lowered;
    var q := Lower(TrimSpace(query.q));
    ContainsExactly(Lower(it.name), q);
    ContainsExactly(Lower(it.description), q);
    LowerIs(query.tag);
    TagIn(it.tags, Lower(query.tag));
  }

  lemma TagIn(tags: seq<string>, t: string)
    ensures t in Lowered(tags) <==> exists x :: x in tags && Lower(x) == t
  {
    hide Lower;
    if t in Lowered(tags) {
      var i :| 0 <= i < |tags| && Lowered(tags)[i] == t;
      assert tags[i] in tags && Lower(tags[i]) == t;
    }
    if x :| x in tags && Lower(x) == t {
      var i :| 0 <= i < |tags| && tags[i] == x;
      assert Lowered(tags)[i] == t;
    }
  }

  lemma {:induction false} MatchingExactly(list: seq<Item>, query: Query, skip: Filter)
    ensures forall it :: it in Matching(list, query, skip) <==> it in list && Matches(it, query, skip)
  {
    hide Matches;
    if list != [] { MatchingExactly(list[1..], query, skip); }
  }

  // ---- the counts ----

  /** The count of value v of an area, category or risk. */
  function Count(list: seq<Item>, query: Query, f: Filter, v: string): nat {
    if list == [] then 0
    else (if Value(list[0], f) == v && Matches(list[0], query, f) then 1 else 0) + Count(list[1..], query, f, v)
  }

  /** The count of a tag: an item that repeats it counts each time. */
  function Tagged(list: seq<Item>, query: Query, t: string): nat {
    if list == [] then 0
    else (if Matches(list[0], query, Tag) then multiset(Lowered(list[0].tags))[t] else 0) + Tagged(list[1..], query, t)
  }

  predicate CountsValues(f: Filter) {
    f.Area? || f.Category? || f.Risk?
  }

  /** Choosing the value gives as many results as its count says. */
  lemma {:induction false} CountPredicts(list: seq<Item>, query: Query, f: Filter, v: string)
    requires CountsValues(f) && v != ""
    ensures Count(list, query, f, v) == |Matching(list, With(query, f, v), NoFilter)|
  {
    hide Found, Lower, TrimSpace, Lowered;
    if list != [] {
      CountPredicts(list[1..], query, f, v);
    }
  }

  /** No match repeats the tag, up to case. */
  predicate OnceEach(list: seq<Item>, query: Query, t: string) {
    forall it | it in list && Matches(it, query, Tag) :: multiset(Lowered(it.tags))[t] <= 1
  }

  /** Choosing a tag gives at most as many results as its count says, and as
      many exactly when no match repeats it. */
  lemma {:induction false} TagPredicts(list: seq<Item>, query: Query, tag: string)
    requires tag != ""
    ensures Tagged(list, query, Lower(tag)) >= |Matching(list, With(query, Tag, tag), NoFilter)|
    ensures Tagged(list, query, Lower(tag)) == |Matching(list, With(query, Tag, tag), NoFilter)| <==> OnceEach(list, query, Lower(tag))
  {
    hide Found, Lower, TrimSpace, Matches, Lowered;
    if list != [] {
      TagPredicts(list[1..], query, tag);
      TagMatch(list[0], query, tag);
      OnceCons(list, query, Lower(tag));
    }
  }

  lemma TagMatch(it: Item, query: Query, tag: string)
    requires tag != ""
    ensures Matches(it, With(query, Tag, tag), NoFilter) <==> Matches(it, query, Tag) && multiset(Lowered(it.tags))[Lower(tag)] >= 1
  {
    hide Found, TrimSpace, Lowered;
    assert Lower(tag) in Lowered(it.tags) <==> Lower(tag) in multiset(Lowered(it.tags));
  }

  lemma OnceCons(list: seq<Item>, query: Query, t: string)
    requires list != []
    ensures OnceEach(list, query, t) <==>
            (Matches(list[0], query, Tag) ==> multiset(Lowered(list[0].tags))[t] <= 1) && OnceEach(list[1..], query, t)
  {
    hide Matches, Lowered;
    assert list == [list[0]] + list[1..];
  }

  // ---- the office's own first ----

  predicate Own(it: Item) {
    it.source == ""
  }

  function InsertOwn(x: Item, s: seq<Item>): seq<Item> {
    if s == [] || !(Own(s[0]) && !Own(x)) then [x] + s else [s[0]] + InsertOwn(x, s[1..])
  }

  /** sort.SliceStable by "own before not own". */
  function OwnFirst(s: seq<Item>): seq<Item> {
    if s == [] then [] else InsertOwn(s[0], OwnFirst(s[1..]))
  }

  function Part(s: seq<Item>, own: bool): seq<Item> {
    if s == [] then [] else (if Own(s[0]) == own then [s[0]] else []) + Part(s[1..], own)
  }

  /** The office's own in their order, then the others in theirs. */
  lemma {:induction false} OwnFirstParts(s: seq<Item>)
    ensures OwnFirst(s) == Part(s, true) + Part(s, false)
  {
    if s != [] {
      OwnFirstParts(s[1..]);
      PartIs(s[1..]);
      InsertParts(s[0], Part(s[1..], true), Part(s[1..], false));
    }
  }

  lemma {:induction false} PartIs(s: seq<Item>)
    ensures forall own: bool :: forall it | it in Part(s, own) :: Own(it) == own
  {
    if s != [] {
      PartIs(s[1..]);
    }
  }

  lemma {:induction false} InsertParts(x: Item, own: seq<Item>, others: seq<Item>)
    requires forall it | it in own :: Own(it)
    requires forall it | it in others :: !Own(it)
    ensures InsertOwn(x, own + others) == if Own(x) then [x] + own + others else own + ([x] + others)
  {
    hide Own;
    var all := own + others;
    if own == [] {
      assert all == others;
      if others != [] { assert others[0] in others; }
    } else {
      assert all[0] == own[0] && own[0] in own;
      if Own(x) {
        assert [x] + all == [x] + own + others;
      } else {
        assert all[1..] == own[1..] + others;
        InsertParts(x, own[1..], others);
        assert own == [own[0]] + own[1..];
      }
    }
  }

  // ---- the tags listed ----

  /** sort.Slice's order: the most used first, then by name. */
  predicate Before(x: TagCount, y: TagCount) {
    x.count > y.count || (x.count == y.count && Le(x.tag, y.tag))
  }

  ghost predicate InOrder(s: seq<TagCount>) {
    forall i, j | 0 <= i < j < |s| :: Before(s[i], s[j])
  }

  lemma BeforeOrder(x: TagCount, y: TagCount, z: TagCount)
    ensures Before(x, y) || Before(y, x)
    ensures Before(x, y) && Before(y, z) ==> Before(x, z)
  {
    LeOrder(x.tag, y.tag);
    if Le(x.tag, y.tag) && Le(y.tag, z.tag) { LeTransitive(x.tag, y.tag, z.tag); }
  }

  function InsertTag(x: TagCount, s: seq<TagCount>): seq<TagCount> {
    if s == [] || Before(x, s[0]) then [x] + s else [s[0]] + InsertTag(x, s[1..])
  }

  lemma {:induction false} InsertTagOrder(x: TagCount, s: seq<TagCount>)
    requires InOrder(s)
    ensures InOrder(InsertTag(x, s)) && multiset(InsertTag(x, s)) == multiset(s) + multiset{x}
  {
    hide Before;
    if s != [] {
      assert s == [s[0]] + s[1..];
      BeforeOrder(x, s[0], s[0]);
      if Before(x, s[0]) {
        forall j | 0 <= j < |s| ensures Before(x, s[j]) { if j > 0 { BeforeOrder(x, s[0], s[j]); } }
      } else {
        var rest := InsertTag(x, s[1..]);
        InsertTagOrder(x, s[1..]);
        forall j | 0 <= j < |rest| ensures Before(s[0], rest[j]) { assert rest[j] in multiset(s[1..]) + multiset{x}; }
      }
    }
  }

  /** s lists the most used of the counted tags, at most LISTED, in order. */
  ghost predicate MostUsed(s: seq<TagCount>, counts: map<string, nat>) {
    && InOrder(s) && |s| == (if |counts| < LISTED then |counts| else LISTED)
    && (forall i, j | 0 <= i < j < |s| :: s[i].tag != s[j].tag)
    && (forall x | x in s :: x.tag in counts && counts[x.tag] == x.count)
    && (forall t | t in counts && TagCount(t, counts[t]) !in s :: forall x | x in s :: Before(x, TagCount(t, counts[t])))
  }

  lemma AfterPrefix(all: seq<TagCount>, n: nat, y: TagCount)
    requires n <= |all| && InOrder(all) && y in all && y !in all[..n]
    ensures forall x | x in all[..n] :: Before(x, y)
  {
    hide Before;
    var k :| 0 <= k < |all| && all[k] == y;
    assert forall j | 0 <= j < n :: all[..n][j] == all[j];
  }

  /** The tags listed are at most 40, the most used first and those used as often
      by name; whatever is left out would stand behind each of them. */
  lemma TopTags(s: seq<TagCount>, counts: map<string, nat>)
    requires MostUsed(s, counts)
    ensures |s| <= 40 && (|s| < 40 ==> |s| == |counts|)
    ensures forall i, j | 0 <= i < j < |s| :: s[j].count < s[i].count || (s[j].count == s[i].count && Le(s[i].tag, s[j].tag))
    ensures forall x, t | x in s && t in counts && TagCount(t, counts[t]) !in s ::
              counts[t] < x.count || (counts[t] == x.count && Le(x.tag, t))
  {
    hide Le;
  }

  method SortTags(counts: map<string, nat>) returns (s: seq<TagCount>)
    ensures MostUsed(s, counts)
  {
    hide Before;
    s := [];
    var todo := counts.Keys;
    while todo != {}
      invariant todo <= counts.Keys && InOrder(s) && |s| + |todo| == |counts|
      invariant forall x | x in s :: x.tag in counts && x.tag !in todo && counts[x.tag] == x.count
      invariant forall t | t in counts && t !in todo :: TagCount(t, counts[t]) in s
      invariant forall i, j | 0 <= i < j < |s| :: s[i].tag != s[j].tag
      decreases todo
    {
      var t :| t in todo;
      InsertTagOrder(TagCount(t, counts[t]), s);
      InsertTagMembers(TagCount(t, counts[t]), s);
      todo := todo - {t};
      s := InsertTag(TagCount(t, counts[t]), s);
    }
    ghost var all := s;
    s := s[..if |s| < LISTED then |s| else LISTED];
    forall t | t in counts && TagCount(t, counts[t]) !in s
      ensures forall x | x in s :: Before(x, TagCount(t, counts[t]))
    {
      AfterPrefix(all, |s|, TagCount(t, counts[t]));
    }
  }

  lemma {:induction false} InsertTagMembers(x: TagCount, s: seq<TagCount>)
    requires forall i, j | 0 <= i < j < |s| :: s[i].tag != s[j].tag
    requires forall y | y in s :: y.tag != x.tag
    ensures |InsertTag(x, s)| == |s| + 1
    ensures forall y :: y in InsertTag(x, s) <==> y == x || y in s
    ensures var r := InsertTag(x, s); forall i, j | 0 <= i < j < |r| :: r[i].tag != r[j].tag
  {
    hide Before;
    if s != [] && !Before(x, s[0]) {
      var rest := InsertTag(x, s[1..]);
      InsertTagMembers(x, s[1..]);
      forall j | 0 <= j < |rest| ensures s[0].tag != rest[j].tag { assert rest[j] in rest; }
      assert InsertTag(x, s) == [s[0]] + rest && s == [s[0]] + s[1..];
    } else {
      assert InsertTag(x, s) == [x] + s;
    }
  }

  // ---- the loop ----

  function At(m: map<string, nat>, k: string): nat {
    if k in m then m[k] else 0
  }

  function Bumped(m: map<string, nat>, k: string): map<string, nat> {
    m[k := At(m, k) + 1]
  }

  method FilterLibrary(list: seq<Item>, query: Query)
    returns (out: seq<Item>, areas: map<string, nat>, categories: map<string, nat>, risks: map<string, nat>, tags: seq<TagCount>, ghost all: map<string, nat>)
    ensures out == OwnFirst(Matching(list, query, NoFilter))
    ensures Counted(areas, list, query, Area) && Counted(categories, list, query, Category) && Counted(risks, list, query, Risk)
    ensures TagsCounted(all, list, query) && MostUsed(tags, all)
  {
    hide Matches, Lowered;
    out, areas, categories, risks := [], map[], map[], map[];
    var counts: map<string, nat> := map[];
    for i := 0 to |list|
      invariant out == Matching(list[..i], query, NoFilter)
      invariant Counted(areas, list[..i], query, Area)
      invariant Counted(categories, list[..i], query, Category)
      invariant Counted(risks, list[..i], query, Risk)
      invariant TagsCounted(counts, list[..i], query)
    {
      var it := list[i];
      assert list[..i + 1] == list[..i] + [it];
      MatchingOneMore(list[..i], it, query, NoFilter);
      if Matches(it, query, NoFilter) {
        out := out + [it];
      }
      areas := CountOneMore(areas, list[..i], it, query, Area);
      categories := CountOneMore(categories, list[..i], it, query, Category);
      risks := CountOneMore(risks, list[..i], it, query, Risk);
      counts := TagOneMore(counts, list[..i], it, query);
    }
    assert list[..|list|] == list;
    all := counts;
    tags := SortTags(counts);
    out := OwnFirst(out);
  }

  /** The map holds the counts of the values met, and no other. */
  ghost predicate Counted(m: map<string, nat>, list: seq<Item>, query: Query, f: Filter) {
    forall v :: (v in m <==> v != "" && Count(list, query, f, v) > 0) && (v in m ==> m[v] == Count(list, query, f, v))
  }

  ghost predicate TagsCounted(m: map<string, nat>, list: seq<Item>, query: Query) {
    forall t :: (t in m <==> Tagged(list, query, t) > 0) && (t in m ==> m[t] == Tagged(list, query, t))
  }

  method CountOneMore(m: map<string, nat>, ghost list: seq<Item>, it: Item, query: Query, f: Filter) returns (r: map<string, nat>)
    requires Counted(m, list, query, f)
    ensures Counted(r, list + [it], query, f)
  {
    hide Matches;
    var v := Value(it, f);
    r := if v != "" && Matches(it, query, f) then Bumped(m, v) else m;
    forall w ensures Count(list + [it], query, f, w) == Count(list, query, f, w) + (if w == v && Matches(it, query, f) then 1 else 0) {
      CountJoin(list, it, query, f, w);
    }
  }

  method TagOneMore(m: map<string, nat>, ghost list: seq<Item>, it: Item, query: Query) returns (r: map<string, nat>)
    requires TagsCounted(m, list, query)
    ensures TagsCounted(r, list + [it], query)
  {
    hide Matches, Lowered, Tagged, Lower;
    r := m;
    forall t ensures Tagged(list + [it], query, t) == Tagged(list, query, t) + (if Matches(it, query, Tag) then multiset(Lowered(it.tags))[t] else 0) {
      TaggedJoin(list, it, query, t);
    }
    if Matches(it, query, Tag) {
      r := BumpAll(m, Lowered(it.tags));
    }
  }

  method BumpAll(m: map<string, nat>, ts: seq<string>) returns (r: map<string, nat>)
    requires forall t | t in m :: m[t] > 0
    ensures forall t :: At(r, t) == At(m, t) + multiset(ts)[t]
    ensures forall t | t in r :: r[t] > 0
  {
    r := m;
    for i := 0 to |ts|
      invariant forall t :: At(r, t) == At(m, t) + multiset(ts[..i])[t]
      invariant forall t | t in r :: r[t] > 0
    {
      assert ts[..i + 1] == ts[..i] + [ts[i]];
      r := Bumped(r, ts[i]);
    }
    assert ts[..|ts|] == ts;
  }

  lemma {:induction false} MatchingOneMore(list: seq<Item>, it: Item, query: Query, skip: Filter)
    ensures Matching(list + [it], query, skip) == Matching(list, query, skip) + (if Matches(it, query, skip) then [it] else [])
  {
    hide Matches;
    if list == [] {
      assert list + [it] == [it];
      assert [it][1..] == [];
    } else {
      assert (list + [it])[1..] == list[1..] + [it];
      MatchingOneMore(list[1..], it, query, skip);
    }
  }

  lemma {:induction false} CountJoin(list: seq<Item>, it: Item, query: Query, f: Filter, v: string)
    ensures Count(list + [it], query, f, v) == Count(list, query, f, v) + (if Value(it, f) == v && Matches(it, query, f) then 1 else 0)
  {
    hide Matches;
    if list == [] {
      assert list + [it] == [it];
    } else {
      assert (list + [it])[1..] == list[1..] + [it];
      CountJoin(list[1..], it, query, f, v);
    }
  }

  lemma {:induction false} TaggedJoin(list: seq<Item>, it: Item, query: Query, t: string)
    ensures Tagged(list + [it], query, t) == Tagged(list, query, t) + (if Matches(it, query, Tag) then multiset(Lowered(it.tags))[t] else 0)
  {
    hide Matches, Lowered;
    if list == [] {
      assert list + [it] == [it];
    } else {
      assert (list + [it])[1..] == list[1..] + [it];
      TaggedJoin(list[1..], it, query, t);
    }
  }
}
