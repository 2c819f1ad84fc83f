/** The order of a chat's waiting cards in the list of incidents
    (internal/api/incidents.go, orderApprovals). */
module Approvals {
  /** body stands for the fields that nothing here reads. */
  datatype Incident = Incident(kind: string, conv: string, id: string, title: string, body: string)

  /** What WaitingOrder says of one chat: the ids in order, and their #numbers. */
  datatype Waiting = Waiting(order: seq<string>, numbers: map<string, nat>)

  predicate IsCard(x: Incident) {
    (x.kind == "approval" || x.kind == "patch") && x.conv != ""
  }

  predicate CardOf(x: Incident, conv: string) {
    IsCard(x) && x.conv == conv
  }

  function WaitingOf(chats: map<string, Waiting>, conv: string): Waiting {
    if conv in chats then chats[conv] else Waiting([], map[])
  }

  /** Where id stands in order, or |order|. */
  function Rank(order: seq<string>, id: string): (r: nat)
    ensures r <= |order| && id !in order[..r]
    ensures r < |order| ==> order[r] == id
  {
    if order == [] || order[0] == id then 0
    else
      var r := 1 + Rank(order[1..], id);
      assert order[..r] == [order[0]] + order[1..][..r - 1];
      r
  }

  /** The indexes of a chat's cards, ascending. */
  function Slots(s: seq<Incident>, conv: string): seq<nat> {
    if s == [] then []
    else Slots(s[..|s| - 1], conv) + (if CardOf(s[|s| - 1], conv) then [|s| - 1] else [])
  }

  /** A chat's cards, going down the list. */
  function Cards(s: seq<Incident>, conv: string): seq<Incident> {
    if s == [] then []
    else Cards(s[..|s| - 1], conv) + (if CardOf(s[|s| - 1], conv) then [s[|s| - 1]] else [])
  }

  /** The slots of t hold the items, in order. */
  ghost predicate Holds(t: seq<Incident>, slots: seq<nat>, items: seq<Incident>) {
    |items| == |slots| && forall k | 0 <= k < |slots| :: slots[k] < |t| && t[slots[k]] == items[k]
  }

  ghost predicate Ascending(slots: seq<nat>) {
    forall j, k | 0 <= j < k < |slots| :: slots[j] < slots[k]
  }

  lemma {:induction false} SlotsHold(s: seq<Incident>, conv: string)
    ensures Holds(s, Slots(s, conv), Cards(s, conv)) && Ascending(Slots(s, conv))
  {
    if s != [] {
      SlotsHold(s[..|s| - 1], conv);
    }
  }

  lemma {:induction false} SlotsAre(s: seq<Incident>, conv: string, i: nat)
    ensures i in Slots(s, conv) <==> i < |s| && CardOf(s[i], conv)
  {
    if s != [] {
      SlotsAre(s[..|s| - 1], conv, i);
    }
  }

  lemma {:induction false} CardsAreCards(s: seq<Incident>, conv: string)
    ensures forall x | x in Cards(s, conv) :: CardOf(x, conv)
  {
    if s != [] {
      CardsAreCards(s[..|s| - 1], conv);
    }
  }

  // ---- the stable sort ----

  function Insert(x: Incident, s: seq<Incident>, order: seq<string>): seq<Incident> {
    if s == [] || Rank(order, x.id) <= Rank(order, s[0].id) then [x] + s
    else [s[0]] + Insert(x, s[1..], order)
  }

  /** slices.SortStableFunc by rank. */
  function StableSort(s: seq<Incident>, order: seq<string>): seq<Incident> {
    if s == [] then [] else Insert(s[0], StableSort(s[1..], order), order)
  }

  ghost predicate Sorted(s: seq<Incident>, order: seq<string>) {
    forall i, j | 0 <= i < j < |s| :: Rank(order, s[i].id) <= Rank(order, s[j].id)
  }

  /** The ones of one rank, in their order. */
  function OfRank(s: seq<Incident>, order: seq<string>, rank: nat): seq<Incident> {
    if s == [] then []
    else (if Rank(order, s[0].id) == rank then [s[0]] else []) + OfRank(s[1..], order, rank)
  }

  lemma SortedCons(x: Incident, s: seq<Incident>, order: seq<string>)
    requires Sorted(s, order) && forall k | 0 <= k < |s| :: Rank(order, x.id) <= Rank(order, s[k].id)
    ensures Sorted([x] + s, order)
  {
    hide Rank;
  }

  lemma {:induction false} InsertPermutes(x: Incident, s: seq<Incident>, order: seq<string>)
    ensures multiset(Insert(x, s, order)) == multiset(s) + multiset{x}
  {
    hide Rank;
    if s != [] && !(Rank(order, x.id) <= Rank(order, s[0].id)) {
      InsertPermutes(x, s[1..], order);
      assert s == [s[0]] + s[1..];
    }
  }

  lemma {:induction false} InsertSorts(x: Incident, s: seq<Incident>, order: seq<string>)
    requires Sorted(s, order)
    ensures Sorted(Insert(x, s, order), order)
  {
    hide Rank;
    if s != [] && !(Rank(order, x.id) <= Rank(order, s[0].id)) {
      var rest := Insert(x, s[1..], order);
      InsertSorts(x, s[1..], order);
      InsertPermutes(x, s[1..], order);
      forall k | 0 <= k < |rest| ensures Rank(order, s[0].id) <= Rank(order, rest[k].id) {
        assert rest[k] in multiset(s[1..]) + multiset{x};
      }
      SortedCons(s[0], rest, order);
    } else {
      SortedCons(x, s, order);
    }
  }

  lemma {:induction false} InsertStable(x: Incident, s: seq<Incident>, order: seq<string>, rank: nat)
    ensures OfRank(Insert(x, s, order), order, rank) == OfRank([x] + s, order, rank)
  {
    hide Rank;
    assert ([x] + s)[1..] == s;
    if s != [] && !(Rank(order, x.id) <= Rank(order, s[0].id)) {
      InsertStable(x, s[1..], order, rank);
      var rest := Insert(x, s[1..], order);
      assert ([s[0]] + rest)[1..] == rest;
      assert ([x] + s[1..])[1..] == s[1..];
    }
  }

  /** A sorted permutation that keeps ties in their order. */
  lemma {:induction false} SortsStably(s: seq<Incident>, order: seq<string>)
    ensures Sorted(StableSort(s, order), order)
    ensures multiset(StableSort(s, order)) == multiset(s)
    ensures forall rank: nat :: OfRank(StableSort(s, order), order, rank) == OfRank(s, order, rank)
  {
    hide Rank, Insert;
    if s != [] {
      SortsStably(s[1..], order);
      var rest := StableSort(s[1..], order);
      InsertSorts(s[0], rest, order);
      InsertPermutes(s[0], rest, order);
      assert s == [s[0]] + s[1..];
      forall rank: nat ensures OfRank(StableSort(s, order), order, rank) == OfRank(s, order, rank) {
        InsertStable(s[0], rest, order, rank);
        assert ([s[0]] + rest)[1..] == rest;
      }
    }
  }

  lemma SortKeeps(s: seq<Incident>, order: seq<string>)
    ensures |StableSort(s, order)| == |s|
    ensures forall x | x in StableSort(s, order) :: x in s
  {
    SortsStably(s, order);
    var t := StableSort(s, order);
    assert |multiset(t)| == |t| && |multiset(s)| == |s|;
    forall x | x in t ensures x in s { assert x in multiset(t); }
  }

  // ---- #numbers ----

  function Digits(n: nat): string {
    (if n < 10 then "" else Digits(n / 10)) + [(('0' as int) + n % 10) as char]
  }

  function Reading(digits: string): int {
    if digits == "" then 0 else 10 * Reading(digits[..|digits| - 1]) + (digits[|digits| - 1] as int - '0' as int)
  }

  /** A #number is written in digits and reads back as the number. */
  lemma {:induction false} DigitsRead(n: nat)
    ensures Digits(n) != "" && Reading(Digits(n)) == n
    ensures forall c | c in Digits(n) :: '0' <= c <= '9'
  {
    if n >= 10 {
      DigitsRead(n / 10);
    }
    var front := if n < 10 then "" else Digits(n / 10);
    assert Digits(n)[..|Digits(n)| - 1] == front;
  }

  function Numbered(x: Incident, numbers: map<string, nat>): Incident {
    if x.id in numbers && numbers[x.id] > 0 then x.(title := "#" + Digits(numbers[x.id]) + " " + x.title) else x
  }

  /** c is x as it is shown: with its own #number before its title if it has one. */
  ghost predicate Titled(x: Incident, c: Incident, numbers: map<string, nat>) {
    if x.id in numbers && numbers[x.id] > 0
    then exists d :: Reading(d) == numbers[x.id] && (forall i | 0 <= i < |d| :: '0' <= d[i] <= '9') && c == x.(title := "#" + d + " " + x.title)
    else c == x
  }

  lemma NumberedTitled(x: Incident, numbers: map<string, nat>)
    ensures Titled(x, Numbered(x, numbers), numbers)
  {
    hide Digits, Reading;
    if x.id in numbers {
      var d := Digits(numbers[x.id]);
      DigitsRead(numbers[x.id]);
      forall i | 0 <= i < |d| ensures '0' <= d[i] <= '9' { assert d[i] in d; }
      assert numbers[x.id] > 0 ==> Reading(d) == numbers[x.id];
    }
  }

  function AllNumbered(s: seq<Incident>, numbers: map<string, nat>): seq<Incident> {
    seq(|s|, k requires 0 <= k < |s| => Numbered(s[k], numbers))
  }

  /** What a chat's slots hold in the end. */
  function Arranged(s: seq<Incident>, chats: map<string, Waiting>, conv: string): seq<Incident> {
    AllNumbered(StableSort(Cards(s, conv), WaitingOf(chats, conv).order), WaitingOf(chats, conv).numbers)
  }

  lemma ArrangedCards(s: seq<Incident>, chats: map<string, Waiting>, conv: string)
    ensures |Arranged(s, chats, conv)| == |Slots(s, conv)|
    ensures forall k | 0 <= k < |Arranged(s, chats, conv)| :: CardOf(Arranged(s, chats, conv)[k], conv)
  {
    hide Slots, Cards, StableSort, Rank;
    var w := WaitingOf(chats, conv);
    SlotsHold(s, conv);
    CardsAreCards(s, conv);
    SortKeeps(Cards(s, conv), w.order);
    var sorted := StableSort(Cards(s, conv), w.order);
    forall k | 0 <= k < |sorted| ensures CardOf(Numbered(sorted[k], w.numbers), conv) {
      assert sorted[k] in Cards(s, conv);
    }
  }

  /** t is what orderApprovals makes of s. */
  ghost predicate Ordered(s: seq<Incident>, t: seq<Incident>, chats: map<string, Waiting>) {
    && |t| == |s|
    && (forall i | 0 <= i < |s| && !IsCard(s[i]) :: t[i] == s[i])
    && (forall conv :: Holds(t, Slots(s, conv), Arranged(s, chats, conv)))
  }

  /** Going down the list, every chat's cards stand in its old slots, are the
      cards it had with their #numbers, and come in waiting order, the ones of
      one rank in their old order; every other incident stands where it stood. */
  lemma DownTheList(s: seq<Incident>, t: seq<Incident>, chats: map<string, Waiting>, conv: string)
    requires Ordered(s, t, chats)
    ensures |t| == |s|
    ensures forall i | 0 <= i < |s| && ((s[i].kind != "approval" && s[i].kind != "patch") || s[i].conv == "") :: t[i] == s[i]
    ensures forall i: nat :: i in Slots(s, conv) <==>
              i < |s| && (s[i].kind == "approval" || s[i].kind == "patch") && s[i].conv != "" && s[i].conv == conv
    ensures var w := WaitingOf(chats, conv);
            exists sorted ::
              && Slots(t, conv) == Slots(s, conv)
              && |Cards(t, conv)| == |sorted| && (forall k | 0 <= k < |sorted| :: Titled(sorted[k], Cards(t, conv)[k], w.numbers))
              && multiset(sorted) == multiset(Cards(s, conv))
              && Sorted(sorted, w.order) && Sorted(Cards(t, conv), w.order)
              && forall rank: nat :: OfRank(sorted, w.order, rank) == OfRank(Cards(s, conv), w.order, rank)
  {
    hide Slots, Cards, StableSort, Rank, Ordered, OfRank;
    var w := WaitingOf(chats, conv);
    var sorted := StableSort(Cards(s, conv), w.order);
    SortsStably(Cards(s, conv), w.order);
    SlotsAreCards(s, conv);
    OrderedCards(s, t, chats, conv);
    var cards := Cards(t, conv);
    forall k | 0 <= k < |sorted| ensures Titled(sorted[k], cards[k], w.numbers) { NumberedTitled(sorted[k], w.numbers); }
    assert forall i | 0 <= i < |sorted| :: cards[i].id == sorted[i].id;
    SortedAlike(sorted, cards, w.order);
  }

  lemma SlotsAreCards(s: seq<Incident>, conv: string)
    ensures forall i: nat :: i in Slots(s, conv) <==>
              i < |s| && (s[i].kind == "approval" || s[i].kind == "patch") && s[i].conv != "" && s[i].conv == conv
  {
    hide Slots;
    forall i: nat ensures i in Slots(s, conv) <==> i < |s| && CardOf(s[i], conv) { SlotsAre(s, conv, i); }
  }

  lemma SortedAlike(a: seq<Incident>, b: seq<Incident>, order: seq<string>)
    requires Sorted(a, order) && |a| == |b| && forall i | 0 <= i < |a| :: b[i].id == a[i].id
    ensures Sorted(b, order)
  {
    hide Rank;
  }

  lemma OrderedCards(s: seq<Incident>, t: seq<Incident>, chats: map<string, Waiting>, conv: string)
    requires Ordered(s, t, chats)
    ensures |t| == |s| && Slots(t, conv) == Slots(s, conv) && Cards(t, conv) == Arranged(s, chats, conv)
    ensures forall i | 0 <= i < |s| && !IsCard(s[i]) :: t[i] == s[i]
  {
    hide Slots, Cards, Arranged;
    forall i | 0 <= i < |s| ensures CardOf(t[i], conv) <==> CardOf(s[i], conv) {
      if IsCard(s[i]) {
        SlotsAre(s, s[i].conv, i);
        ArrangedCards(s, chats, s[i].conv);
        assert Holds(t, Slots(s, s[i].conv), Arranged(s, chats, s[i].conv));
      }
    }
    SameSlots(s, t, conv);
    assert Holds(t, Slots(s, conv), Arranged(s, chats, conv));
    SlotsHold(t, conv);
  }

  lemma {:induction false} SameSlots(s: seq<Incident>, t: seq<Incident>, conv: string)
    requires |s| == |t| && forall i | 0 <= i < |s| :: CardOf(t[i], conv) <==> CardOf(s[i], conv)
    ensures Slots(t, conv) == Slots(s, conv)
  {
    if s != [] {
      SameSlots(s[..|s| - 1], t[..|t| - 1], conv);
    }
  }

  // ---- in place ----

  function At(slots: map<string, seq<nat>>, conv: string): seq<nat> {
    if conv in slots then slots[conv] else []
  }

  method FindSlots(out: array<Incident>) returns (slots: map<string, seq<nat>>)
    ensures forall conv :: At(slots, conv) == Slots(out[..], conv)
  {
    slots := map[];
    for i := 0 to out.Length
      invariant forall conv :: At(slots, conv) == Slots(out[..i], conv)
    {
      var x := out[i];
      assert out[..i + 1][..i] == out[..i];
      if IsCard(x) {
        slots := slots[x.conv := At(slots, x.conv) + [i]];
      }
    }
    assert out[..out.Length] == out[..];
  }

  method Place(out: array<Incident>, at: seq<nat>, w: Waiting, ghost was: seq<Incident>)
    requires Holds(out[..], at, was) && Ascending(at)
    modifies out
    ensures Holds(out[..], at, AllNumbered(StableSort(was, w.order), w.numbers))
    ensures forall i | 0 <= i < out.Length && i !in at :: out[i] == old(out[i])
  {
    hide StableSort, Rank, Digits;
    var items := [];
    for i := 0 to |at|
      invariant items == was[..i] && out[..] == old(out[..])
    {
      assert out[..][at[i]] == was[i];
      items := items + [out[at[i]]];
    }
    assert was[..|at|] == was;
    SortKeeps(items, w.order);
    items := StableSort(items, w.order);
    for i := 0 to |at|
      invariant forall k | 0 <= k < i :: out[at[k]] == Numbered(items[k], w.numbers)
      invariant forall j | 0 <= j < out.Length && j !in at :: out[j] == old(out[j])
    {
      out[at[i]] := Numbered(items[i], w.numbers);
    }
    assert forall k | 0 <= k < |at| :: out[..][at[k]] == AllNumbered(items, w.numbers)[k];
  }

  method OrderApprovals(out: array<Incident>, chats: map<string, Waiting>)
    modifies out
    ensures Ordered(old(out[..]), out[..], chats)
  {
    hide Slots, Cards, StableSort, Midway;
    ghost var s := out[..];
    var slots := FindSlots(out);
    var todo := slots.Keys;
    forall conv | conv !in todo ensures Slots(s, conv) == [] { assert At(slots, conv) == []; }
    MidwayStart(s, chats, todo);
    while todo != {}
      invariant todo <= slots.Keys
      invariant Midway(s, out[..], chats, todo)
      decreases todo
    {
      var conv :| conv in todo;
      ghost var was := out[..];
      var at := slots[conv];
      assert at == At(slots, conv) == Slots(s, conv);
      MidwayHolds(s, was, chats, todo, conv);
      Place(out, at, WaitingOf(chats, conv), Cards(s, conv));
      PlacedStep(s, was, out[..], chats, todo, conv);
      todo := todo - {conv};
    }
    MidwayDone(s, out[..], chats);
  }

  /** The chats in todo still have their cards as in s. */
  ghost predicate Midway(s: seq<Incident>, t: seq<Incident>, chats: map<string, Waiting>, todo: set<string>) {
    && |t| == |s|
    && (forall i | 0 <= i < |s| && !IsCard(s[i]) :: t[i] == s[i])
    && (forall conv | conv in todo :: Holds(t, Slots(s, conv), Cards(s, conv)))
    && (forall conv | conv !in todo :: Holds(t, Slots(s, conv), Arranged(s, chats, conv)))
  }

  lemma PlacedStep(s: seq<Incident>, was: seq<Incident>, t: seq<Incident>, chats: map<string, Waiting>, todo: set<string>, conv: string)
    requires Midway(s, was, chats, todo) && |t| == |was|
    requires forall i | 0 <= i < |t| && i !in Slots(s, conv) :: t[i] == was[i]
    requires Holds(t, Slots(s, conv), Arranged(s, chats, conv))
    ensures Midway(s, t, chats, todo - {conv})
  {
    hide Slots, Cards, Arranged;
    forall c, items | c != conv && Holds(was, Slots(s, c), items) ensures Holds(t, Slots(s, c), items) {
      OtherChat(s, c, conv);
    }
    forall i | 0 <= i < |s| && !IsCard(s[i]) ensures t[i] == s[i] { SlotsAre(s, conv, i); }
  }

  lemma OtherChat(s: seq<Incident>, c: string, conv: string)
    requires c != conv
    ensures forall k | 0 <= k < |Slots(s, c)| :: Slots(s, c)[k] !in Slots(s, conv)
  {
    hide Slots;
    forall k | 0 <= k < |Slots(s, c)| ensures Slots(s, c)[k] !in Slots(s, conv) {
      SlotsAre(s, c, Slots(s, c)[k]);
      SlotsAre(s, conv, Slots(s, c)[k]);
    }
  }

  lemma MidwayStart(s: seq<Incident>, chats: map<string, Waiting>, todo: set<string>)
    requires forall conv | conv !in todo :: Slots(s, conv) == []
    ensures Midway(s, s, chats, todo)
  {
    hide Slots, Cards, Arranged;
    forall conv ensures |Arranged(s, chats, conv)| == |Slots(s, conv)| && Holds(s, Slots(s, conv), Cards(s, conv)) {
      SlotsHold(s, conv);
      ArrangedCards(s, chats, conv);
    }
  }

  lemma MidwayDone(s: seq<Incident>, t: seq<Incident>, chats: map<string, Waiting>)
    requires Midway(s, t, chats, {})
    ensures Ordered(s, t, chats)
  {
    hide Slots, Cards, Arranged;
  }

  lemma MidwayHolds(s: seq<Incident>, t: seq<Incident>, chats: map<string, Waiting>, todo: set<string>, conv: string)
    requires Midway(s, t, chats, todo) && conv in todo
    ensures Holds(t, Slots(s, conv), Cards(s, conv)) && Ascending(Slots(s, conv)) && |t| == |s|
  {
    hide Slots, Cards, Arranged;
    SlotsHold(s, conv);
  }
}
