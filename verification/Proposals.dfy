/** Proposing an action (internal/actions/actions.go): an agent that proposes
    what is already waiting gets the waiting card. Board takes proposals one at a
    time; the runs at the end let them overlap. */
module Proposals {
  import opened Text

  datatype Card = Card(kind: string, target: string, files: seq<string>, dir: string, chat: string, task: string, pending: bool)

  // ---- sameFiles ----

  function Insert(x: string, s: seq<string>): seq<string> {
    if s == [] || Le(x, s[0]) then [x] + s else [s[0]] + Insert(x, s[1..])
  }

  /** slices.Sort. */
  function Sort(s: seq<string>): seq<string> {
    if s == [] then [] else Insert(s[0], Sort(s[1..]))
  }

  ghost predicate Sorted(s: seq<string>) {
    forall i, j | 0 <= i < j < |s| :: Le(s[i], s[j])
  }

  lemma {:induction false} InsertPermutes(x: string, s: seq<string>)
    ensures multiset(Insert(x, s)) == multiset(s) + multiset{x}
  {
    hide Le;
    if s != [] && !Le(x, s[0]) {
      InsertPermutes(x, s[1..]);
      assert s == [s[0]] + s[1..];
    }
  }

  lemma {:induction false} InsertSorts(x: string, s: seq<string>)
    requires Sorted(s)
    ensures Sorted(Insert(x, s))
  {
    hide Le;
    if s != [] {
      LeOrder(x, s[0]);
      if Le(x, s[0]) {
        forall j | 0 <= j < |s| ensures Le(x, s[j]) { if j > 0 { LeTransitive(x, s[0], s[j]); } }
      } else {
        var rest := Insert(x, s[1..]);
        InsertSorts(x, s[1..]);
        InsertPermutes(x, s[1..]);
        forall j | 0 <= j < |rest| ensures Le(s[0], rest[j]) { assert rest[j] in multiset(s[1..]) + multiset{x}; }
      }
    }
  }

  lemma {:induction false} Sorts(s: seq<string>)
    ensures Sorted(Sort(s)) && multiset(Sort(s)) == multiset(s)
  {
    if s != [] {
      Sorts(s[1..]);
      InsertSorts(s[0], Sort(s[1..]));
      InsertPermutes(s[0], Sort(s[1..]));
      assert s == [s[0]] + s[1..];
    }
  }

  /** Sorted lists with the same members are the same. */
  lemma {:induction false} SortedSame(a: seq<string>, b: seq<string>)
    requires Sorted(a) && Sorted(b) && multiset(a) == multiset(b)
    ensures a == b
  {
    hide Le, Sorted;
    SameLength(a, b);
    if a != [] {
      SameFirst(a, b);
      SameTail(a, b);
      TailSorted(a);
      TailSorted(b);
      SortedSame(a[1..], b[1..]);
      assert a == [a[0]] + a[1..] && b == [b[0]] + b[1..];
    }
  }

  lemma SameLength(a: seq<string>, b: seq<string>)
    requires multiset(a) == multiset(b)
    ensures |a| == |b|
  {
    assert |a| == |multiset(a)| == |multiset(b)| == |b|;
  }

  lemma SameFirst(a: seq<string>, b: seq<string>)
    requires Sorted(a) && Sorted(b) && multiset(a) == multiset(b) && a != [] && b != []
    ensures a[0] == b[0]
  {
    hide Le, Sorted;
    assert a[0] in multiset(b) && b[0] in multiset(a);
    FirstLeast(a, b[0]);
    FirstLeast(b, a[0]);
    LeOrder(a[0], b[0]);
  }

  lemma SameTail(a: seq<string>, b: seq<string>)
    requires multiset(a) == multiset(b) && a != [] && b != [] && a[0] == b[0]
    ensures multiset(a[1..]) == multiset(b[1..])
  {
    assert a == [a[0]] + a[1..] && b == [b[0]] + b[1..];
    assert multiset(a[1..]) == multiset(a) - multiset{a[0]};
    assert multiset(b[1..]) == multiset(b) - multiset{b[0]};
  }

  lemma FirstLeast(s: seq<string>, x: string)
    requires Sorted(s) && x in s
    ensures Le(s[0], x)
  {
    hide Le;
    LeOrder(s[0], s[0]);
  }

  lemma TailSorted(s: seq<string>)
    requires Sorted(s) && s != []
    ensures Sorted(s[1..])
  {
    hide Le;
  }

  /** sameFiles: the same files as often, in any order. */
  method SameFiles(a: seq<string>, b: seq<string>) returns (same: bool)
    ensures same <==> multiset(a) == multiset(b)
  {
    hide Sort, Le;
    Sorts(a);
    Sorts(b);
    if |a| != |b| {
      assert |multiset(a)| == |a| && |multiset(b)| == |b|;
      return false;
    }
    var x, y := Sort(a), Sort(b);
    if multiset(a) == multiset(b) { SortedSame(x, y); }
    same := x == y;
  }

  // ---- and as sets, which is what the comment on sameFiles says ----

  function Files(s: seq<string>): set<string> {
    set x | x in s
  }

  predicate Repeats(s: seq<string>) {
    s != [] && (s[0] in s[1..] || Repeats(s[1..]))
  }

  lemma {:induction false} FilesSize(s: seq<string>)
    ensures |Files(s)| <= |s| && (|Files(s)| == |s| <==> !Repeats(s))
    ensures !Repeats(s) ==> forall x :: multiset(s)[x] == if x in s then 1 else 0
  {
    if s != [] {
      FilesSize(s[1..]);
      assert s == [s[0]] + s[1..];
      assert Files(s) == Files(s[1..]) + {s[0]};
    }
  }

  /** Where the one list repeats no file, the lists are the same exactly when
      they are as long and are the same as sets. */
  lemma AsSets(a: seq<string>, b: seq<string>)
    requires !Repeats(a)
    ensures multiset(a) == multiset(b) <==> |a| == |b| && Files(a) == Files(b)
  {
    hide Files, Repeats;
    FilesSize(a);
    FilesSize(b);
    if multiset(a) == multiset(b) {
      assert |multiset(a)| == |a| && |multiset(b)| == |b|;
      SameFilesSets(a, b);
    }
    if |a| == |b| && Files(a) == Files(b) {
      forall x ensures multiset(a)[x] == multiset(b)[x] { InFiles(a, x); InFiles(b, x); }
      assert multiset(a) == multiset(b);
    }
  }

  lemma InFiles(s: seq<string>, x: string)
    ensures x in Files(s) <==> x in s
  {
  }

  lemma SameFilesSets(a: seq<string>, b: seq<string>)
    requires multiset(a) == multiset(b)
    ensures Files(a) == Files(b)
  {
    forall x ensures x in Files(a) <==> x in Files(b) {
      assert x in multiset(a) <==> x in multiset(b);
    }
  }

  /** Where one does they need not be. */
  lemma NotAsSets()
    ensures exists a: seq<string>, b: seq<string> :: |a| == |b| && Files(a) == Files(b) && multiset(a) != multiset(b)
  {
    var a, b := ["x", "x", "y"], ["x", "y", "y"];
    assert Files(a) == {"x", "y"} == Files(b);
    assert multiset(a)["x"] == 2 && multiset(b)["x"] == 1;
  }

  // ---- what is already waiting ----

  /** A call differs by its arguments; so does a message. */
  predicate Exempt(a: Card) {
    (a.chat == "" && a.task == "") || a.kind == "mcp_call" || a.kind == "send_message"
  }

  /** x is in the list of a's chat, or of its task when it has no chat; the
      list is oldest first. */
  predicate Listed(x: Card, a: Card) {
    if a.chat != "" then x.chat == a.chat else x.task == a.task
  }

  ghost predicate Alike(x: Card, a: Card) {
    && x.kind == a.kind && x.target == a.target
    && (a.kind == "git_commit" ==> multiset(x.files) == multiset(a.files))
    && (a.kind == "run_command" ==> x.dir == a.dir)
  }

  /** x is waiting where a is proposed, and is the same proposal. */
  ghost predicate Stands(x: Card, a: Card) {
    x.pending && Listed(x, a) && Alike(x, a)
  }

  /** No card waits beside an earlier one that stands for it. */
  ghost predicate NoTwins(cards: seq<Card>) {
    forall i, j | 0 <= i < j < |cards| && cards[j].pending && !Exempt(cards[j]) :: !Stands(cards[i], cards[j])
  }

  /** Where Propose finds a, or |cards|. */
  ghost function Find(cards: seq<Card>, a: Card): (i: nat)
    ensures i <= |cards| && (i < |cards| ==> Stands(cards[i], a))
    ensures forall k | 0 <= k < i :: !Stands(cards[k], a)
  {
    if cards == [] || Stands(cards[0], a) then 0 else 1 + Find(cards[1..], a)
  }

  /** Adding a card keeps the twins out exactly when nothing stands for it. */
  lemma AddingOne(cards: seq<Card>, a: Card)
    requires NoTwins(cards) && a.pending && !Exempt(a)
    ensures NoTwins(cards + [a]) <==> Find(cards, a) == |cards|
  {
    var all := cards + [a];
    if Find(cards, a) < |cards| {
      assert Stands(all[Find(cards, a)], all[|cards|]);
    }
  }

  class Board {
    var cards: seq<Card>

    ghost predicate Valid()
      reads this
    {
      NoTwins(cards)
    }

    constructor ()
      ensures Valid() && cards == []
    {
      cards := [];
    }

    /** The card that stands for the proposal: one that waits, or a new one. */
    method Propose(a: Card) returns (at: nat)
      requires Valid() && a.pending
      modifies this
      ensures Valid()
      ensures cards == if !Exempt(a) && Find(old(cards), a) < |old(cards)| then old(cards) else old(cards) + [a]
      ensures at == if Exempt(a) then |old(cards)| else Find(old(cards), a)
      ensures at < |cards| && (if Exempt(a) then cards[at] == a else Stands(cards[at], a))
    {
      hide Find;
      if !Exempt(a) {
        for i := 0 to |cards|
          invariant cards == old(cards)
          invariant forall k | 0 <= k < i :: !Stands(cards[k], a)
        {
          var x := cards[i];
          if !Listed(x, a) || !x.pending || x.kind != a.kind || x.target != a.target {
            continue;
          }
          if a.kind == "git_commit" {
            var same := SameFiles(x.files, a.files);
            if !same {
              continue;
            }
          }
          if a.kind == "run_command" && x.dir != a.dir {
            continue;
          }
          return i;
        }
      }
      at := |cards|;
      cards := cards + [a];
    }

    /** A decision: the card waits no more, nor will again. */
    method Settle(i: nat)
      requires Valid() && i < |cards|
      modifies this
      ensures Valid() && cards == old(cards)[i := old(cards)[i].(pending := false)]
    {
      cards := cards[i := cards[i].(pending := false)];
    }
  }

  /** When a second proposal b gets the card of a, waiting: it is made in the same
      chat, or without one for the same task; it is of the same kind and target,
      and no call of a tool and no message; a commit has the same files, in any
      order; a command is to run in the same folder. */
  lemma SecondProposal(a: Card, b: Card)
    requires a.pending
    ensures !Exempt(b) && Find([a], b) == 0 <==>
            && (b.chat != "" || b.task != "") && b.kind != "mcp_call" && b.kind != "send_message"
            && (if b.chat != "" then a.chat == b.chat else a.task == b.task)
            && a.kind == b.kind && a.target == b.target
            && (b.kind == "git_commit" ==> forall f :: multiset(a.files)[f] == multiset(b.files)[f])
            && (b.kind == "run_command" ==> a.dir == b.dir)
  {
    assert [a][1..] == [];
    if b.kind == "git_commit" && forall f :: multiset(a.files)[f] == multiset(b.files)[f] {
      assert multiset(a.files) == multiset(b.files);
    }
  }

  /** Proposed again while it waits, a proposal gets the same card. */
  lemma {:induction false} FoundAgain(cards: seq<Card>, a: Card)
    requires a.pending
    ensures Find(if Find(cards, a) < |cards| then cards else cards + [a], a) == Find(cards, a)
  {
    if Find(cards, a) == |cards| && cards != [] {
      FoundAgain(cards[1..], a);
      assert (cards + [a])[1..] == cards[1..] + [a];
    }
  }

  // ---- proposals that overlap ----

  /** A proposal that found nothing: seen, how many cards it looked at. */
  datatype Maker = Maker(card: Card, seen: nat, made: bool)

  datatype State = State(cards: seq<Card>, makers: seq<Maker>)

  /** A proposal's look, its card being made, and a decision. */
  datatype Event = Looks(card: Card) | Makes(maker: nat) | Settles(at: nat)

  ghost function Next(s: State, e: Event): Option<State> {
    match e
    case Looks(card) =>
      var a := card.(pending := true);
      if !Exempt(a) && Find(s.cards, a) < |s.cards| then Some(s)
      else Some(s.(makers := s.makers + [Maker(a, |s.cards|, false)]))
    case Makes(i) =>
      if i >= |s.makers| || s.makers[i].made then None
      else Some(State(s.cards + [s.makers[i].card], s.makers[i := s.makers[i].(made := true)]))
    case Settles(at) =>
      if at >= |s.cards| then None else Some(s.(cards := s.cards[at := s.cards[at].(pending := false)]))
  }

  ghost function Run(s: State, es: seq<Event>): Option<State>
    decreases |es|
  {
    if es == [] then Some(s)
    else if Next(s, es[0]).None? then None
    else Run(Next(s, es[0]).value, es[1..])
  }

  /** None of the cards a maker looked at stands for its proposal, then or later. */
  ghost predicate Inv(s: State) {
    forall m | m in s.makers :: m.card.pending && m.seen <= |s.cards|
                                && (!Exempt(m.card) ==> forall k | 0 <= k < m.seen :: !Stands(s.cards[k], m.card))
  }

  lemma StepKeepsInv(s: State, e: Event)
    requires Inv(s) && Next(s, e).Some?
    ensures Inv(Next(s, e).value)
  {
    var t := Next(s, e).value;
    forall m | m in t.makers
      ensures m.card.pending && m.seen <= |t.cards| && (!Exempt(m.card) ==> forall k | 0 <= k < m.seen :: !Stands(t.cards[k], m.card))
    {
      if e.Looks? && m !in s.makers {
        assert m == t.makers[|s.makers|];
      } else if e.Makes? {
        var i :| 0 <= i < |t.makers| && t.makers[i] == m;
        assert s.makers[i] in s.makers;
      }
    }
  }

  /** A card made between the maker's look and now stands for its proposal. */
  ghost predicate Overlapped(s: State, i: nat) {
    && i < |s.makers| && !Exempt(s.makers[i].card)
    && exists k | s.makers[i].seen <= k < |s.cards| :: Stands(s.cards[k], s.makers[i].card)
  }

  lemma StepTwins(s: State, e: Event)
    requires Inv(s) && NoTwins(s.cards) && Next(s, e).Some?
    ensures NoTwins(Next(s, e).value.cards) <==> !(e.Makes? && Overlapped(s, e.maker))
  {
    match e
    case Looks(_) =>
    case Settles(_) =>
    case Makes(i) =>
      var m := s.makers[i];
      assert m in s.makers;
      if Exempt(m.card) {
        assert NoTwins(s.cards + [m.card]);
      } else {
        AddingOne(s.cards, m.card);
      }
  }

  /** No card is made that was overlapped. */
  ghost predicate Apart(s: State, es: seq<Event>)
    decreases |es|
  {
    es == [] || Next(s, es[0]).None?
    || (!(es[0].Makes? && Overlapped(s, es[0].maker)) && Apart(Next(s, es[0]).value, es[1..]))
  }

  /** There are no twins at any moment of the run. */
  ghost predicate NeverTwins(s: State, es: seq<Event>)
    decreases |es|
  {
    NoTwins(s.cards) && (es == [] || Next(s, es[0]).None? || NeverTwins(Next(s, es[0]).value, es[1..]))
  }

  /** However proposals and decisions interleave, there are never twins exactly
      when no card is made after another one that stands for the same proposal
      was made since its look. */
  lemma {:induction false} TwinsExactly(s: State, es: seq<Event>)
    requires Inv(s) && NoTwins(s.cards)
    ensures NeverTwins(s, es) <==> Apart(s, es)
    decreases |es|
  {
    hide Inv, NoTwins, Next, Overlapped;
    if es != [] && Next(s, es[0]).Some? {
      var t := Next(s, es[0]).value;
      StepTwins(s, es[0]);
      StepKeepsInv(s, es[0]);
      if NoTwins(t.cards) { TwinsExactly(t, es[1..]); }
    }
  }

  /** Two proposals of one thing that both look before either card is made. */
  lemma OverlapTwins(a: Card)
    requires a.pending && !Exempt(a)
    ensures var r := Run(State([], []), [Looks(a), Looks(a), Makes(0), Makes(1)]);
            r.Some? && r.value.cards == [a, a] && !NoTwins(r.value.cards)
  {
    var s0 := State([], []);
    assert a.(pending := true) == a;
    var s1 := State([], [Maker(a, 0, false)]);
    var s2 := State([], [Maker(a, 0, false), Maker(a, 0, false)]);
    var s3 := State([a], [Maker(a, 0, true), Maker(a, 0, false)]);
    var s4 := State([a, a], [Maker(a, 0, true), Maker(a, 0, true)]);
    assert s0.makers + [Maker(a, 0, false)] == s1.makers && s1.makers + [Maker(a, 0, false)] == s2.makers;
    assert s2.cards + [a] == s3.cards && s3.cards + [a] == s4.cards;
    assert s2.makers[0 := Maker(a, 0, true)] == s3.makers && s3.makers[1 := Maker(a, 0, true)] == s4.makers;
    assert Next(s0, Looks(a)) == Some(s1) && Next(s1, Looks(a)) == Some(s2);
    assert Next(s2, Makes(0)) == Some(s3) && Next(s3, Makes(1)) == Some(s4);
    assert [Looks(a), Looks(a), Makes(0), Makes(1)][1..] == [Looks(a), Makes(0), Makes(1)];
    assert [Looks(a), Makes(0), Makes(1)][1..] == [Makes(0), Makes(1)] && [Makes(0), Makes(1)][1..] == [Makes(1)];
    assert [Makes(1)][1..] == [];
    assert Run(s4, []) == Some(s4) && Run(s3, [Makes(1)]) == Some(s4) && Run(s2, [Makes(0), Makes(1)]) == Some(s4);
    assert Run(s1, [Looks(a), Makes(0), Makes(1)]) == Some(s4);
    assert Stands([a, a][0], [a, a][1]);
  }
}
