/** The history of an agent's settings and going back in it
    (internal/agentinfo/agentinfo.go). */
module AgentHistory {
  import opened Text
  import opened Json

  /** storage.Permissions; legacy: what the history does not look at. */
  datatype Permissions = Permissions(level: string, caps: Option<seq<string>>, commands: Option<seq<string>>,
                                     processes: Option<seq<string>>, containers: Option<seq<string>>, legacy: string)

  /** team.AgentSpec; avatar stands for everything the history does not track. */
  datatype AgentSpec = AgentSpec(name: string, key: string, role: string, description: string, providerId: string, fallbacks: seq<string>,
                                 modelTier: string, llmModel: string, effort: string, instructions: string, permissions: Permissions, avatar: string)

  /** A revision: the project's agents before a change (None: undecodable). */
  datatype Revision = Revision(id: string, action: string, agents: Option<seq<AgentSpec>>)

  datatype Field = Name | Key | Role | Description | ProviderId | Fallbacks | ModelTier | LLMModel | Effort | Instructions | Perms

  datatype Change = Change(field: Field, before: Json, after: Json)

  datatype Entry = Entry(revision: string, created: bool, changes: seq<Change>, restorable: bool)

  const FIELDS: seq<Field> := [Name, Key, Role, Description, ProviderId, Fallbacks, ModelTier, LLMModel, Effort, Instructions, Perms]

  function Strings(ss: seq<string>): Json {
    Arr(seq(|ss|, i requires 0 <= i < |ss| => Str(ss[i])))
  }

  function ListMember(k: string, ss: Option<seq<string>>): map<string, Json> {
    match ss case None => map[] case Some(l) => map[k := Strings(l)]
  }

  /** permView. */
  function PermView(p: Permissions): Json {
    Obj(map["level" := Str(p.level)] + ListMember("caps", p.caps) + ListMember("commands", p.commands)
        + ListMember("processes", p.processes) + ListMember("containers", p.containers))
  }

  /** The getters of `fields`. */
  function Get(x: AgentSpec, f: Field): Json {
    match f
    case Name => Str(x.name)
    case Key => Str(x.key)
    case Role => Str(x.role)
    case Description => Str(x.description)
    case ProviderId => Str(x.providerId)
    case Fallbacks => Strings(x.fallbacks)
    case ModelTier => Str(x.modelTier)
    case LLMModel => Str(x.llmModel)
    case Effort => Str(x.effort)
    case Instructions => Str(x.instructions)
    case Perms => PermView(x.permissions)
  }

  function DiffOf(fs: seq<Field>, before: AgentSpec, after: AgentSpec): seq<Change> {
    if fs == [] then []
    else
      (if Get(before, fs[0]) != Get(after, fs[0]) then [Change(fs[0], Get(before, fs[0]), Get(after, fs[0]))] else [])
      + DiffOf(fs[1..], before, after)
  }

  /** diff. */
  function Diff(before: AgentSpec, after: AgentSpec): seq<Change> {
    DiffOf(FIELDS, before, after)
  }

  function KeysOf(agents: seq<AgentSpec>): set<string> {
    set x | x in agents :: x.key
  }

  /** The first agent with this key. */
  function ByKey(agents: seq<AgentSpec>, key: string): (r: Option<AgentSpec>)
    ensures r.Some? ==> r.value in agents && r.value.key == key
    ensures r.None? ==> forall x | x in agents :: x.key != key
  {
    if agents == [] then None else if agents[0].key == key then Some(agents[0]) else ByKey(agents[1..], key)
  }

  function Gone(agents: seq<AgentSpec>, afterKeys: set<string>): (r: seq<AgentSpec>)
    ensures forall x | x in r :: x in agents && x.key !in afterKeys
  {
    if agents == [] then []
    else (if agents[0].key !in afterKeys then [agents[0]] else []) + Gone(agents[1..], afterKeys)
  }

  /** specByKey. */
  function SpecByKey(agents: seq<AgentSpec>, key: string, action: string, afterKeys: set<string>): (r: Option<AgentSpec>)
    ensures r.Some? ==> r.value in agents
  {
    var x := ByKey(agents, key);
    if x.Some? then x
    else if action != "agent.update:" + key then None
    else
      var gone := Gone(agents, afterKeys);
      if |gone| == 1 then Some(gone[0]) else None
  }

  function FirstNonEmpty(a: string, b: string): string {
    if a != "" then a else b
  }

  /** History from a state `after` (known under key) back through revs. */
  function Back(revs: seq<Revision>, after: AgentSpec, key: string, afterKeys: set<string>): seq<Entry> {
    if revs == [] then []
    else if revs[0].agents.None? then Back(revs[1..], after, key, afterKeys)
    else
      match SpecByKey(revs[0].agents.value, key, revs[0].action, afterKeys)
      case None => [Entry(revs[0].id, true, [], false)]
      case Some(before) =>
        var changes := Diff(before, after);
        (if changes != [] then [Entry(revs[0].id, false, changes, true)] else [])
        + Back(revs[1..], before, FirstNonEmpty(before.key, key), KeysOf(revs[0].agents.value))
  }

  /** History: revs newest first, current the project's agents as they are. */
  function History(revs: seq<Revision>, current: seq<AgentSpec>, a: AgentSpec): seq<Entry> {
    Back(revs, a, a.key, KeysOf(current))
  }

  // ---- undoing changes ----

  function View(x: AgentSpec): map<Field, Json> {
    map f | f in FIELDS :: Get(x, f)
  }

  /** v with every change put back to its "before". */
  function Undo(v: map<Field, Json>, changes: seq<Change>): map<Field, Json>
    decreases |changes|
  {
    if changes == [] then v else Undo(v[changes[0].field := changes[0].before], changes[1..])
  }

  /** v with whole entries undone, newest first. */
  function UndoEntries(v: map<Field, Json>, entries: seq<Entry>): map<Field, Json>
    decreases |entries|
  {
    if entries == [] then v else UndoEntries(Undo(v, entries[0].changes), entries[1..])
  }

  lemma EveryField(f: Field)
    ensures f in FIELDS
  {
    assert FIELDS == [Name, Key, Role, Description, ProviderId, Fallbacks, ModelTier, LLMModel, Effort, Instructions, Perms];
    match f
    case Name => assert FIELDS[0] == f;
    case Key => assert FIELDS[1] == f;
    case Role => assert FIELDS[2] == f;
    case Description => assert FIELDS[3] == f;
    case ProviderId => assert FIELDS[4] == f;
    case Fallbacks => assert FIELDS[5] == f;
    case ModelTier => assert FIELDS[6] == f;
    case LLMModel => assert FIELDS[7] == f;
    case Effort => assert FIELDS[8] == f;
    case Instructions => assert FIELDS[9] == f;
    case Perms => assert FIELDS[10] == f;
  }

  lemma {:induction false} UndoDiffOf(fs: seq<Field>, before: AgentSpec, after: AgentSpec, v: map<Field, Json>)
    requires forall f | f in fs :: f in v && (v[f] == Get(after, f) || v[f] == Get(before, f))
    ensures var u := Undo(v, DiffOf(fs, before, after));
            u.Keys == v.Keys && forall f | f in v :: u[f] == if f in fs then Get(before, f) else v[f]
  {
    if fs != [] {
      hide Get;
      var f := fs[0];
      var rest := DiffOf(fs[1..], before, after);
      var v' := if Get(before, f) != Get(after, f) then v[f := Get(before, f)] else v;
      assert Get(before, f) != Get(after, f) ==> DiffOf(fs, before, after)[1..] == rest;
      assert Get(before, f) == Get(after, f) ==> DiffOf(fs, before, after) == rest;
      assert Undo(v, DiffOf(fs, before, after)) == Undo(v', rest);
      UndoDiffOf(fs[1..], before, after, v');
    }
  }

  /** Undoing a difference gives the earlier state. */
  lemma UndoDiff(before: AgentSpec, after: AgentSpec)
    ensures Undo(View(after), Diff(before, after)) == View(before)
  {
    UndoDiffOf(FIELDS, before, after, View(after));
  }

  lemma {:induction false} DiffMembers(fs: seq<Field>, before: AgentSpec, after: AgentSpec)
    ensures forall c | c in DiffOf(fs, before, after) ::
              c.field in fs && c.before == Get(before, c.field) && c.after == Get(after, c.field) && c.before != c.after
    ensures forall f | f in fs && Get(before, f) != Get(after, f) :: Change(f, Get(before, f), Get(after, f)) in DiffOf(fs, before, after)
  {
    if fs != [] {
      DiffMembers(fs[1..], before, after);
    }
  }

  /** Whether a person would see a field the same in both. */
  predicate SameIn(a: AgentSpec, b: AgentSpec, f: Field) {
    match f
    case Name => a.name == b.name
    case Key => a.key == b.key
    case Role => a.role == b.role
    case Description => a.description == b.description
    case ProviderId => a.providerId == b.providerId
    case Fallbacks => a.fallbacks == b.fallbacks
    case ModelTier => a.modelTier == b.modelTier
    case LLMModel => a.llmModel == b.llmModel
    case Effort => a.effort == b.effort
    case Instructions => a.instructions == b.instructions
    case Perms => a.permissions.(legacy := "") == b.permissions.(legacy := "")
  }

  lemma StringsInjective(a: seq<string>, b: seq<string>)
    ensures Strings(a) == Strings(b) <==> a == b
  {
    if Strings(a) == Strings(b) {
      assert |a| == |Strings(a).items| == |b|;
      forall i | 0 <= i < |a| ensures a[i] == b[i] { assert Strings(a).items[i] == Strings(b).items[i]; }
    }
  }

  lemma MemberInjective(k: string, a: Option<seq<string>>, b: Option<seq<string>>)
    ensures ListMember(k, a) == ListMember(k, b) <==> a == b
  {
    hide Strings;
    if a.Some? && b.Some? {
      StringsInjective(a.value, b.value);
      assert ListMember(k, a) == ListMember(k, b) ==> ListMember(k, a)[k] == ListMember(k, b)[k];
    } else if a.Some? {
      assert k in ListMember(k, a);
    } else if b.Some? {
      assert k in ListMember(k, b);
    }
  }

  /** What the view of permissions has under each name. */
  lemma MembersOfView(p: Permissions)
    ensures PermView(p).Obj? && "level" in PermView(p).fields && PermView(p).fields["level"] == Str(p.level)
    ensures Part(PermView(p).fields, "caps") == ListMember("caps", p.caps)
    ensures Part(PermView(p).fields, "commands") == ListMember("commands", p.commands)
    ensures Part(PermView(p).fields, "processes") == ListMember("processes", p.processes)
    ensures Part(PermView(p).fields, "containers") == ListMember("containers", p.containers)
  {
    hide Strings;
  }

  function Part(m: map<string, Json>, k: string): map<string, Json> {
    if k in m then map[k := m[k]] else map[]
  }

  lemma PermsInjective(p: Permissions, q: Permissions)
    ensures PermView(p) == PermView(q) <==> p.(legacy := "") == q.(legacy := "")
  {
    hide PermView, ListMember, Part;
    MembersOfView(p);
    MembersOfView(q);
    MemberInjective("caps", p.caps, q.caps);
    MemberInjective("commands", p.commands, q.commands);
    MemberInjective("processes", p.processes, q.processes);
    MemberInjective("containers", p.containers, q.containers);
    if p.(legacy := "") == q.(legacy := "") { ViewIgnoresLegacy(p); ViewIgnoresLegacy(q); }
  }

  lemma ViewIgnoresLegacy(p: Permissions)
    ensures PermView(p.(legacy := "")) == PermView(p)
  {
  }

  lemma FieldShown(a: AgentSpec, b: AgentSpec, f: Field)
    ensures Get(a, f) == Get(b, f) <==> SameIn(a, b, f)
  {
    hide Strings, PermView;
    StringsInjective(a.fallbacks, b.fallbacks);
    PermsInjective(a.permissions, b.permissions);
  }

  /** A difference names exactly the fields whose settings differ; legacy
      permissions and the avatar are not among them. */
  lemma DiffExactly(before: AgentSpec, after: AgentSpec)
    ensures forall f: Field :: (exists c :: c in Diff(before, after) && c.field == f) <==> !SameIn(before, after, f)
  {
    hide Get, SameIn, DiffOf;
    DiffMembers(FIELDS, before, after);
    forall f: Field ensures (exists c :: c in Diff(before, after) && c.field == f) <==> !SameIn(before, after, f) {
      EveryField(f);
      FieldShown(before, after, f);
      if Get(before, f) != Get(after, f) { assert Change(f, Get(before, f), Get(after, f)) in Diff(before, after); }
    }
  }

  // ---- the history is one chain ----

  predicate UniqueKeys(agents: seq<AgentSpec>) {
    forall i, j | 0 <= i < j < |agents| :: agents[i].key != agents[j].key
  }

  /** What the store keeps of the revisions' ids. */
  predicate DistinctIds(revs: seq<Revision>) {
    forall i, j | 0 <= i < j < |revs| :: revs[i].id != revs[j].id
  }

  lemma DistinctTail(revs: seq<Revision>)
    requires DistinctIds(revs) && revs != []
    ensures DistinctIds(revs[1..])
  {
  }

  /** The entry for one revision, if it has one. */
  function EntryOf(rev: Revision, before: AgentSpec, after: AgentSpec): seq<Entry> {
    var changes := Diff(before, after);
    if changes != [] then [Entry(rev.id, false, changes, true)] else []
  }

  lemma UndoEntryOf(rev: Revision, before: AgentSpec, after: AgentSpec)
    ensures UndoEntries(View(after), EntryOf(rev, before, after)) == View(before)
  {
    hide View, Diff;
    UndoDiff(before, after);
    if Diff(before, after) == [] {
    } else {
      assert EntryOf(rev, before, after)[1..] == [];
    }
  }

  lemma {:induction false} UndoJoin(v: map<Field, Json>, a: seq<Entry>, b: seq<Entry>)
    ensures UndoEntries(v, a + b) == UndoEntries(UndoEntries(v, a), b)
    decreases |a|
  {
    if a == [] {
      assert a + b == b;
    } else {
      assert (a + b)[1..] == a[1..] + b;
      UndoJoin(Undo(v, a[0].changes), a[1..], b);
    }
  }

  lemma {:induction false} SoleIsFirst(agents: seq<AgentSpec>, afterKeys: set<string>)
    requires |Gone(agents, afterKeys)| == 1
    ensures ByKey(agents, Gone(agents, afterKeys)[0].key) == Some(Gone(agents, afterKeys)[0])
  {
    if agents[0].key in afterKeys {
      assert Gone(agents, afterKeys) == Gone(agents[1..], afterKeys);
      SoleIsFirst(agents[1..], afterKeys);
      assert Gone(agents, afterKeys)[0] in Gone(agents, afterKeys);
    }
  }

  /** The agent matched in a snapshot is the first of its key there. */
  lemma MatchIsFirst(agents: seq<AgentSpec>, key: string, action: string, afterKeys: set<string>)
    requires SpecByKey(agents, key, action, afterKeys).Some?
    ensures var x := SpecByKey(agents, key, action, afterKeys).value; ByKey(agents, x.key) == Some(x)
  {
    hide ByKey, Gone;
    if ByKey(agents, key).None? { SoleIsFirst(agents, afterKeys); }
  }

  /** Undoing the history down to an entry that can be gone back to gives the
      state of an agent of that entry's snapshot, the first of its key there. */
  lemma {:induction false} UndoReaches(revs: seq<Revision>, after: AgentSpec, key: string, afterKeys: set<string>, n: nat)
    returns (k: nat, x: AgentSpec)
    requires n < |Back(revs, after, key, afterKeys)| && Back(revs, after, key, afterKeys)[n].restorable
    ensures k < |revs| && revs[k].id == Back(revs, after, key, afterKeys)[n].revision
    ensures revs[k].agents.Some? && ByKey(revs[k].agents.value, x.key) == Some(x)
    ensures UndoEntries(View(after), Back(revs, after, key, afterKeys)[..n + 1]) == View(x)
  {
    hide View, Diff, SpecByKey;
    var h := Back(revs, after, key, afterKeys);
    if revs[0].agents.None? {
      k, x := UndoReaches(revs[1..], after, key, afterKeys, n);
      k := k + 1;
    } else {
      var before := SpecByKey(revs[0].agents.value, key, revs[0].action, afterKeys).value;
      MatchIsFirst(revs[0].agents.value, key, revs[0].action, afterKeys);
      var e := EntryOf(revs[0], before, after);
      var key', keys' := FirstNonEmpty(before.key, key), KeysOf(revs[0].agents.value);
      var rest := Back(revs[1..], before, key', keys');
      assert h == e + rest;
      UndoEntryOf(revs[0], before, after);
      if n < |e| {
        assert h[..n + 1] == e;
        k, x := 0, before;
      } else {
        k, x := UndoReaches(revs[1..], before, key', keys', n - |e|);
        k := k + 1;
        assert h[..n + 1] == e + rest[..n - |e| + 1];
        UndoJoin(View(after), e, rest[..n - |e| + 1]);
      }
    }
  }

  /** Each change starts from what undoing the newer entries left of its field. */
  lemma {:induction false} ChangeMeetsNewer(revs: seq<Revision>, after: AgentSpec, key: string, afterKeys: set<string>, n: nat, c: Change)
    requires n < |Back(revs, after, key, afterKeys)| && c in Back(revs, after, key, afterKeys)[n].changes
    ensures c.field in FIELDS && c.before != c.after
    ensures var v := UndoEntries(View(after), Back(revs, after, key, afterKeys)[..n]); c.field in v && v[c.field] == c.after
  {
    hide View, Diff, SpecByKey;
    var h := Back(revs, after, key, afterKeys);
    if revs[0].agents.None? {
      ChangeMeetsNewer(revs[1..], after, key, afterKeys, n, c);
    } else if SpecByKey(revs[0].agents.value, key, revs[0].action, afterKeys).Some? {
      var before := SpecByKey(revs[0].agents.value, key, revs[0].action, afterKeys).value;
      MatchIsFirst(revs[0].agents.value, key, revs[0].action, afterKeys);
      var e := EntryOf(revs[0], before, after);
      var key', keys' := FirstNonEmpty(before.key, key), KeysOf(revs[0].agents.value);
      var rest := Back(revs[1..], before, key', keys');
      assert h == e + rest;
      if n < |e| {
        ChangeOfDiff(before, after, c);
        assert h[..n] == [];
      } else {
        ChangeMeetsNewer(revs[1..], before, key', keys', n - |e|, c);
        assert h[..n] == e + rest[..n - |e|];
        UndoJoin(View(after), e, rest[..n - |e|]);
        UndoEntryOf(revs[0], before, after);
      }
    }
  }

  lemma ChangeOfDiff(before: AgentSpec, after: AgentSpec, c: Change)
    requires c in Diff(before, after)
    ensures c.field in FIELDS && c.before != c.after && c.field in View(after) && View(after)[c.field] == c.after
  {
    hide Get, DiffOf;
    DiffMembers(FIELDS, before, after);
  }

  predicate Touches(e: Entry, f: Field) {
    exists c | c in e.changes :: c.field == f
  }

  lemma {:induction false} UndoUntouched(v: map<Field, Json>, changes: seq<Change>, f: Field)
    requires f in v && forall c | c in changes :: c.field != f
    ensures f in Undo(v, changes) && Undo(v, changes)[f] == v[f]
    decreases |changes|
  {
    if changes != [] { UndoUntouched(v[changes[0].field := changes[0].before], changes[1..], f); }
  }

  lemma {:induction false} UndoneLast(v: map<Field, Json>, changes: seq<Change>, c: Change)
    requires c in changes && forall d | d in changes && d.field == c.field :: d.before == c.before
    ensures c.field in Undo(v, changes) && Undo(v, changes)[c.field] == c.before
    decreases |changes|
  {
    var v' := v[changes[0].field := changes[0].before];
    if c in changes[1..] {
      UndoneLast(v', changes[1..], c);
    } else {
      assert c == changes[0];
      if d :| d in changes[1..] && d.field == c.field {
        assert d in changes;
        forall x | x in changes[1..] && x.field == d.field ensures x.before == d.before { assert x in changes; }
        UndoneLast(v', changes[1..], d);
      } else {
        UndoUntouched(v', changes[1..], c.field);
      }
    }
  }

  lemma {:induction false} UndoEntriesUntouched(v: map<Field, Json>, h: seq<Entry>, f: Field)
    requires f in v && forall e | e in h :: !Touches(e, f)
    ensures f in UndoEntries(v, h) && UndoEntries(v, h)[f] == v[f]
    decreases |h|
  {
    if h != [] {
      assert !Touches(h[0], f);
      UndoUntouched(v, h[0].changes, f);
      UndoEntriesUntouched(Undo(v, h[0].changes), h[1..], f);
    }
  }

  /** The newest listed change of a field ends at its value now. */
  lemma NewestEndsNow(revs: seq<Revision>, current: seq<AgentSpec>, a: AgentSpec, n: nat, c: Change)
    requires n < |History(revs, current, a)| && c in History(revs, current, a)[n].changes
    requires forall m | 0 <= m < n :: !Touches(History(revs, current, a)[m], c.field)
    ensures c.after == Get(a, c.field)
  {
    hide Get;
    var h := History(revs, current, a);
    ChangeMeetsNewer(revs, a, a.key, KeysOf(current), n, c);
    UndoEntriesUntouched(View(a), h[..n], c.field);
  }

  lemma UndoAcross(v: map<Field, Json>, h: seq<Entry>, m: nat, n: nat)
    requires m < n <= |h|
    ensures UndoEntries(v, h[..n]) == UndoEntries(Undo(UndoEntries(v, h[..m]), h[m].changes), h[m + 1..n])
  {
    assert h[..n] == h[..m] + h[m..n];
    UndoJoin(v, h[..m], h[m..n]);
    assert h[m..n][1..] == h[m + 1..n];
  }

  /** Two changes of a field with none between them meet: the older one's
      "after" is the newer one's "before". */
  lemma ChangesMeet(revs: seq<Revision>, current: seq<AgentSpec>, a: AgentSpec, m: nat, n: nat, newer: Change, older: Change)
    requires m < n < |History(revs, current, a)|
    requires newer in History(revs, current, a)[m].changes && older in History(revs, current, a)[n].changes
    requires newer.field == older.field
    requires forall k | m < k < n :: !Touches(History(revs, current, a)[k], older.field)
    ensures older.after == newer.before
  {
    hide Get, View, Undo, Back;
    var h := History(revs, current, a);
    ChangeMeetsNewer(revs, a, a.key, KeysOf(current), n, older);
    UndoAcross(View(a), h, m, n);
    var v := UndoEntries(View(a), h[..m]);
    OneChangeAField(revs, a, a.key, KeysOf(current), m, newer);
    UndoneLast(v, h[m].changes, newer);
    UndoEntriesUntouched(Undo(v, h[m].changes), h[m + 1..n], older.field);
  }

  lemma {:induction false} OneChangeAField(revs: seq<Revision>, after: AgentSpec, key: string, afterKeys: set<string>, n: nat, c: Change)
    requires n < |Back(revs, after, key, afterKeys)| && c in Back(revs, after, key, afterKeys)[n].changes
    ensures forall d | d in Back(revs, after, key, afterKeys)[n].changes && d.field == c.field :: d.before == c.before
  {
    hide Get, DiffOf, SpecByKey;
    if revs[0].agents.None? {
      OneChangeAField(revs[1..], after, key, afterKeys, n, c);
    } else if SpecByKey(revs[0].agents.value, key, revs[0].action, afterKeys).Some? {
      var before := SpecByKey(revs[0].agents.value, key, revs[0].action, afterKeys).value;
      var e := EntryOf(revs[0], before, after);
      if n < |e| {
        DiffMembers(FIELDS, before, after);
      } else {
        OneChangeAField(revs[1..], before, FirstNonEmpty(before.key, key), KeysOf(revs[0].agents.value), n - |e|, c);
      }
    }
  }

  // ---- going back ----

  /** The key after a list of changes is undone. */
  function KeyBefore(changes: seq<Change>, key: string): string {
    if changes == [] then key
    else KeyBefore(changes[1..], if changes[0].field.Key? && changes[0].before.Str? then changes[0].before.s else key)
  }

  /** The key the agent had in revision id's snapshot, and whether there is a
      state to go back to. */
  function KeyAt(hist: seq<Entry>, id: string, key: string): (string, bool) {
    if hist == [] then (key, false)
    else
      var key' := KeyBefore(hist[0].changes, key);
      if hist[0].revision == id then (key', hist[0].restorable) else KeyAt(hist[1..], id, key')
  }

  /** The last agent with this key. */
  function LastByKey(agents: seq<AgentSpec>, key: string): (r: Option<AgentSpec>)
    ensures r.Some? ==> r.value in agents && r.value.key == key
    ensures r.None? ==> forall x | x in agents :: x.key != key
  {
    if agents == [] then None
    else
      var last := agents[|agents| - 1];
      if last.key == key then Some(last) else LastByKey(agents[..|agents| - 1], key)
  }

  /** Refused: ErrNoBefore from the history; Missing: no such key in the
      snapshot after all (or it cannot be decoded). */
  datatype Restored = Refused | Missing | From(spec: AgentSpec)

  /** The spec Restore copies back. */
  function Restore(revs: seq<Revision>, current: seq<AgentSpec>, a: AgentSpec, rev: Revision): Restored {
    var k := KeyAt(History(revs, current, a), rev.id, a.key);
    if !k.1 then Refused
    else if rev.agents.None? then Missing
    else match LastByKey(rev.agents.value, k.0) case None => Missing case Some(x) => From(x)
  }

  lemma {:induction false} KeyIsUndone(changes: seq<Change>, key: string, v: map<Field, Json>)
    requires Key in v && v[Key] == Str(key) && forall c | c in changes && c.field.Key? :: c.before.Str?
    ensures Key in Undo(v, changes) && Undo(v, changes)[Key] == Str(KeyBefore(changes, key))
    decreases |changes|
  {
    if changes != [] {
      var c := changes[0];
      KeyIsUndone(changes[1..], if c.field.Key? then c.before.s else key, v[c.field := c.before]);
    }
  }

  lemma {:induction false} KeyAtIsUndone(h: seq<Entry>, id: string, key: string, v: map<Field, Json>, n: nat)
    requires n < |h| && h[n].revision == id && forall m | 0 <= m < n :: h[m].revision != id
    requires Key in v && v[Key] == Str(key)
    requires forall e, c | e in h && c in e.changes && c.field.Key? :: c.before.Str?
    ensures var u := UndoEntries(v, h[..n + 1]); Key in u && u[Key] == Str(KeyAt(h, id, key).0)
    ensures KeyAt(h, id, key).1 == h[n].restorable
    decreases n
  {
    KeyIsUndone(h[0].changes, key, v);
    var key', v' := KeyBefore(h[0].changes, key), Undo(v, h[0].changes);
    assert h[..n + 1][1..] == h[1..][..n];
    if n > 0 {
      KeyAtIsUndone(h[1..], id, key', v', n - 1);
    }
  }

  /** Entries keep the order of the revisions and only the changed ones. */
  lemma {:induction false} EntriesOfRevs(revs: seq<Revision>, after: AgentSpec, key: string, afterKeys: set<string>)
    requires DistinctIds(revs)
    ensures var h := Back(revs, after, key, afterKeys);
            && (forall e | e in h :: exists r :: r in revs && r.id == e.revision)
            && (forall i, j | 0 <= i < j < |h| :: h[i].revision != h[j].revision)
            && (forall e, c | e in h && c in e.changes && c.field.Key? :: c.before.Str?)
  {
    hide Diff, SpecByKey;
    if revs != [] {
      DistinctTail(revs);
      var h := Back(revs, after, key, afterKeys);
      if revs[0].agents.None? {
        EntriesOfRevs(revs[1..], after, key, afterKeys);
      } else if SpecByKey(revs[0].agents.value, key, revs[0].action, afterKeys).Some? {
        var before := SpecByKey(revs[0].agents.value, key, revs[0].action, afterKeys).value;
        var e := EntryOf(revs[0], before, after);
        var rest := Back(revs[1..], before, FirstNonEmpty(before.key, key), KeysOf(revs[0].agents.value));
        EntriesOfRevs(revs[1..], before, FirstNonEmpty(before.key, key), KeysOf(revs[0].agents.value));
        assert h == e + rest;
        KeyChanges(before, after);
      }
    }
  }

  lemma KeyChanges(before: AgentSpec, after: AgentSpec)
    ensures forall c | c in Diff(before, after) && c.field.Key? :: c.before.Str?
  {
    DiffMembers(FIELDS, before, after);
  }

  lemma LastIsOnly(agents: seq<AgentSpec>, x: AgentSpec)
    requires UniqueKeys(agents) && x in agents
    ensures LastByKey(agents, x.key) == Some(x)
  {
    var i :| 0 <= i < |agents| && agents[i] == x;
    var y := LastByKey(agents, x.key).value;
    var j :| 0 <= j < |agents| && agents[j] == y;
  }

  /** Going back to a listed revision takes the last agent of the key that the
      history's agent had there, through any renames since; undoing the listed
      changes gives the first of that key. So the later "not found" exit is never
      taken, and the two agree exactly when the first and the last look alike;
      with one agent a key they are the same. */
  lemma RestoreAgrees(revs: seq<Revision>, current: seq<AgentSpec>, a: AgentSpec, rev: Revision, n: nat)
    requires DistinctIds(revs) && rev in revs
    requires n < |History(revs, current, a)| && History(revs, current, a)[n].revision == rev.id
    ensures var h := History(revs, current, a); var r := Restore(revs, current, a, rev);
            if h[n].restorable
            then
              && r.From? && rev.agents.Some? && r.spec in rev.agents.value
              && var undone := UndoEntries(View(a), h[..n + 1]);
                 var first, last := ByKey(rev.agents.value, r.spec.key), LastByKey(rev.agents.value, r.spec.key);
                 && first.Some? && last == Some(r.spec) && View(first.value) == undone
                 && (View(r.spec) == undone <==> View(last.value) == View(first.value))
                 && (UniqueKeys(rev.agents.value) ==> View(r.spec) == undone)
            else r.Refused?
  {
    hide Get, SpecByKey, Diff, UndoEntries, LastByKey, ByKey;
    var h := History(revs, current, a);
    EntriesOfRevs(revs, a, a.key, KeysOf(current));
    KeyOfView(a);
    KeyAtIsUndone(h, rev.id, a.key, View(a), n);
    if h[n].restorable {
      var k, x := UndoReaches(revs, a, a.key, KeysOf(current), n);
      assert revs[k] == rev;
      KeyOfView(x);
      assert x in rev.agents.value && x.key == KeyAt(h, rev.id, a.key).0;
      if UniqueKeys(rev.agents.value) { LastIsOnly(rev.agents.value, x); }
    }
  }

  lemma KeyOfView(x: AgentSpec)
    ensures Key in View(x) && View(x)[Key] == Str(x.key)
  {
    EveryField(Key);
  }

  /** A revision the history does not list cannot be gone back to. */
  lemma UnlistedRefused(revs: seq<Revision>, current: seq<AgentSpec>, a: AgentSpec, rev: Revision)
    requires forall e | e in History(revs, current, a) :: e.revision != rev.id
    ensures Restore(revs, current, a, rev).Refused?
  {
    KeyAtUnlisted(History(revs, current, a), rev.id, a.key);
  }

  lemma {:induction false} KeyAtUnlisted(h: seq<Entry>, id: string, key: string)
    requires forall e | e in h :: e.revision != id
    ensures !KeyAt(h, id, key).1
  {
    if h != [] { KeyAtUnlisted(h[1..], id, KeyBefore(h[0].changes, key)); }
  }

  /** Why the keys must differ: with two agents of one key the history shows the
      first and Restore copies the last. */
  lemma SameKeyDisagrees(first: AgentSpec, last: AgentSpec, a: AgentSpec, rev: Revision)
    requires first.key == last.key == a.key && Diff(first, a) != [] && rev.agents == Some([first, last])
    ensures Restore([rev], [a], a, rev) == From(last)
    ensures UndoEntries(View(a), History([rev], [a], a)) == View(first)
  {
    hide Get, Diff, View;
    var h := History([rev], [a], a);
    assert SpecByKey([first, last], a.key, rev.action, KeysOf([a])) == Some(first);
    assert [rev][1..] == [] && rev.agents.value == [first, last];
    assert Back([rev][1..], first, FirstNonEmpty(first.key, a.key), KeysOf([first, last])) == [];
    assert h == EntryOf(rev, first, a);
    UndoEntryOf(rev, first, a);
    KeyChanges(first, a);
    SameKeyKept(first, a);
    assert h[1..] == [];
    assert KeyAt(h, rev.id, a.key) == (a.key, true);
  }

  lemma SameKeyKept(first: AgentSpec, a: AgentSpec)
    requires first.key == a.key
    ensures KeyBefore(Diff(first, a), a.key) == a.key
  {
    DiffMembers(FIELDS, first, a);
    NoKeyChange(Diff(first, a), a.key);
  }

  lemma {:induction false} NoKeyChange(changes: seq<Change>, key: string)
    requires forall c | c in changes :: !c.field.Key?
    ensures KeyBefore(changes, key) == key
  {
    if changes != [] { NoKeyChange(changes[1..], key); }
  }

  // ---- which entries there are ----

  /** Where the walk back is: the agent as it was next, the key it is looked for
      under, and the keys of all the agents then. */
  datatype Point = Point(agent: AgentSpec, key: string, keys: set<string>)

  ghost predicate NoneHas(snap: seq<AgentSpec>, key: string) {
    forall x | x in snap :: x.key != key
  }

  /** x is the first of the snapshot with the key. */
  ghost predicate First(snap: seq<AgentSpec>, key: string, x: AgentSpec) {
    exists i | 0 <= i < |snap| :: snap[i] == x && x.key == key && forall j | 0 <= j < i :: snap[j].key != key
  }

  /** x is the only agent of the snapshot whose key is gone afterwards. */
  ghost predicate Sole(snap: seq<AgentSpec>, keys: set<string>, x: AgentSpec) {
    exists i | 0 <= i < |snap| :: snap[i] == x && x.key !in keys && forall j | 0 <= j < |snap| && j != i :: snap[j].key in keys
  }

  /** x is the agent as it was in the snapshot: the first of its key, or, when
      the revision is an update of that key and none has it, the one renamed. */
  ghost predicate Was(snap: seq<AgentSpec>, p: Point, action: string, x: AgentSpec) {
    || First(snap, p.key, x)
    || (NoneHas(snap, p.key) && action == "agent.update:" + p.key && Sole(snap, p.keys, x))
  }

  /** One revision back. */
  ghost predicate Goes(p: Point, rev: Revision, q: Point) {
    match rev.agents
    case None => q == p
    case Some(snap) =>
      && Was(snap, p, rev.action, q.agent)
      && q.key == (if q.agent.key != "" then q.agent.key else p.key)
      && q.keys == set x | x in snap :: x.key
  }

  /** The entry of a change: its fields are those that differ, before and after. */
  ghost predicate IsEntry(e: Entry, rev: Revision, before: AgentSpec, after: AgentSpec) {
    && e.revision == rev.id && !e.created && e.restorable
    && (forall f: Field | Get(before, f) != Get(after, f) :: Change(f, Get(before, f), Get(after, f)) in e.changes)
    && (forall c | c in e.changes :: c == Change(c.field, Get(before, c.field), Get(after, c.field)) && c.before != c.after)
  }

  ghost predicate Differ(before: AgentSpec, after: AgentSpec) {
    exists f: Field :: Get(before, f) != Get(after, f)
  }

  lemma {:induction false} NoneGone(agents: seq<AgentSpec>, keys: set<string>)
    ensures Gone(agents, keys) == [] <==> forall x | x in agents :: x.key in keys
  {
    if agents != [] {
      NoneGone(agents[1..], keys);
      assert agents == [agents[0]] + agents[1..];
    }
  }

  lemma {:induction false} GoneMembers(agents: seq<AgentSpec>, keys: set<string>)
    ensures |Gone(agents, keys)| == 1 ==> Sole(agents, keys, Gone(agents, keys)[0])
    ensures forall x | Sole(agents, keys, x) :: Gone(agents, keys) == [x]
  {
    if agents != [] {
      var more := agents[1..];
      if agents[0].key !in keys {
        NoneGone(more, keys);
        SoleHead(agents, keys);
      } else {
        GoneMembers(more, keys);
        assert Gone(agents, keys) == Gone(more, keys);
        SoleCons(agents, keys);
      }
    }
  }

  lemma SoleHead(agents: seq<AgentSpec>, keys: set<string>)
    requires agents != [] && agents[0].key !in keys
    ensures (forall x | x in agents[1..] :: x.key in keys) ==> Sole(agents, keys, agents[0])
    ensures forall x | Sole(agents, keys, x) :: x == agents[0] && forall y | y in agents[1..] :: y.key in keys
  {
    var more := agents[1..];
    if forall x | x in more :: x.key in keys {
      assert forall j | 0 <= j < |agents| && j != 0 :: agents[j] == more[j - 1] && more[j - 1] in more;
      assert agents[0] == agents[0] && forall j | 0 <= j < |agents| && j != 0 :: agents[j].key in keys;
    }
    forall x | Sole(agents, keys, x) ensures x == agents[0] && forall y | y in more :: y.key in keys {
      var i :| 0 <= i < |agents| && agents[i] == x && x.key !in keys && forall j | 0 <= j < |agents| && j != i :: agents[j].key in keys;
      assert i == 0;
      forall y | y in more ensures y.key in keys {
        var j :| 0 <= j < |more| && more[j] == y;
        assert agents[j + 1] == y;
      }
    }
  }

  lemma SoleCons(agents: seq<AgentSpec>, keys: set<string>)
    requires agents != [] && agents[0].key in keys
    ensures forall x :: Sole(agents, keys, x) <==> Sole(agents[1..], keys, x)
  {
    var more := agents[1..];
    forall x ensures Sole(agents, keys, x) <==> Sole(more, keys, x) {
      if Sole(agents, keys, x) {
        var i :| 0 <= i < |agents| && agents[i] == x && x.key !in keys && forall j | 0 <= j < |agents| && j != i :: agents[j].key in keys;
        assert i > 0 && more[i - 1] == x;
        forall j | 0 <= j < |more| && j != i - 1 ensures more[j].key in keys { assert more[j] == agents[j + 1]; }
      }
      if Sole(more, keys, x) {
        var i :| 0 <= i < |more| && more[i] == x && x.key !in keys && forall j | 0 <= j < |more| && j != i :: more[j].key in keys;
        assert agents[i + 1] == x;
        forall j | 0 <= j < |agents| && j != i + 1 ensures agents[j].key in keys { if j > 0 { assert agents[j] == more[j - 1]; } }
      }
    }
  }

  lemma {:induction false} ByKeyFirst(agents: seq<AgentSpec>, key: string)
    ensures ByKey(agents, key).Some? ==> First(agents, key, ByKey(agents, key).value)
    ensures forall x | First(agents, key, x) :: ByKey(agents, key) == Some(x)
  {
    if agents != [] {
      var more := agents[1..];
      ByKeyFirst(more, key);
      if agents[0].key == key {
        assert First(agents, key, agents[0]);
      } else {
        FirstCons(agents, key);
      }
    }
  }

  lemma FirstCons(agents: seq<AgentSpec>, key: string)
    requires agents != [] && agents[0].key != key
    ensures forall x :: First(agents, key, x) <==> First(agents[1..], key, x)
  {
    var more := agents[1..];
    forall x ensures First(agents, key, x) <==> First(more, key, x) {
      if First(agents, key, x) {
        var i :| 0 <= i < |agents| && agents[i] == x && x.key == key && forall j | 0 <= j < i :: agents[j].key != key;
        assert i > 0 && more[i - 1] == x;
        forall j | 0 <= j < i - 1 ensures more[j].key != key { assert more[j] == agents[j + 1]; }
      }
      if First(more, key, x) {
        var i :| 0 <= i < |more| && more[i] == x && x.key == key && forall j | 0 <= j < i :: more[j].key != key;
        assert agents[i + 1] == x;
        forall j | 0 <= j < i + 1 ensures agents[j].key != key { if j > 0 { assert agents[j] == more[j - 1]; } }
      }
    }
  }

  /** specByKey finds the agent as it was, when there is one such, and no other. */
  lemma SpecIsWas(snap: seq<AgentSpec>, p: Point, action: string)
    ensures SpecByKey(snap, p.key, action, p.keys).Some? ==> Was(snap, p, action, SpecByKey(snap, p.key, action, p.keys).value)
    ensures forall x | Was(snap, p, action, x) :: SpecByKey(snap, p.key, action, p.keys) == Some(x)
  {
    hide ByKey, Gone, First, Sole;
    ByKeyFirst(snap, p.key);
    GoneMembers(snap, p.keys);
    forall x | Was(snap, p, action, x) ensures SpecByKey(snap, p.key, action, p.keys) == Some(x) {}
  }

  lemma EntryIs(rev: Revision, before: AgentSpec, after: AgentSpec)
    ensures Diff(before, after) != [] <==> Differ(before, after)
    ensures IsEntry(Entry(rev.id, false, Diff(before, after), true), rev, before, after)
  {
    hide Get, DiffOf;
    DiffMembers(FIELDS, before, after);
    forall f: Field ensures f in FIELDS { EveryField(f); }
    if Diff(before, after) != [] {
      var c := Diff(before, after)[0];
      assert c in Diff(before, after);
    }
  }

  /** Step k of a path. */
  ghost predicate StepOk(revs: seq<Revision>, ps: seq<Point>, k: nat) {
    k < |revs| && k + 1 < |ps| && Goes(ps[k], revs[k], ps[k + 1])
  }

  /** The agent looked different before revision k's change. */
  ghost predicate Changed(ps: seq<Point>, k: nat) {
    k + 1 < |ps| && Differ(ps[k + 1].agent, ps[k].agent)
  }

  ghost predicate EntryFor(e: Entry, revs: seq<Revision>, ps: seq<Point>, k: nat) {
    k < |revs| && k + 1 < |ps| && IsEntry(e, revs[k], ps[k + 1].agent, ps[k].agent)
  }

  /** The path of the walk: c revisions gone back, to the one that created the
      agent or to the end. */
  ghost predicate Path(revs: seq<Revision>, ps: seq<Point>, c: nat) {
    && c <= |revs| && |ps| == c + 1
    && (forall k | 0 <= k < c :: StepOk(revs, ps, k))
    && (c < |revs| ==> revs[c].agents.Some? && forall x :: !Was(revs[c].agents.value, ps[c], revs[c].action, x))
  }

  ghost predicate Listed(h: seq<Entry>, revs: seq<Revision>, ps: seq<Point>, k: nat) {
    exists e | e in h :: EntryFor(e, revs, ps, k)
  }

  ghost predicate OfChange(e: Entry, revs: seq<Revision>, ps: seq<Point>, c: nat) {
    exists k | 0 <= k < c :: Changed(ps, k) && EntryFor(e, revs, ps, k)
  }

  /** The creation, if revision c is it, is the last entry and the only such. */
  predicate CreatedLast(h: seq<Entry>, revs: seq<Revision>, c: nat)
    requires c <= |revs|
  {
    && (forall i | 0 <= i < |h| :: h[i].created <==> c < |revs| && i == |h| - 1)
    && (c < |revs| ==> h != [] && h[|h| - 1] == Entry(revs[c].id, true, [], false))
  }

  /** The entries for a path: one for each change, and the creation last. */
  ghost predicate Lists(h: seq<Entry>, revs: seq<Revision>, ps: seq<Point>, c: nat)
    requires c <= |revs|
  {
    && (forall k | 0 <= k < c && Changed(ps, k) :: Listed(h, revs, ps, k))
    && (forall e | e in h && !e.created :: OfChange(e, revs, ps, c))
    && CreatedLast(h, revs, c)
  }

  lemma Shifted(revs: seq<Revision>, ps: seq<Point>, k: nat)
    requires revs != [] && ps != []
    ensures Changed(ps, k + 1) <==> Changed(ps[1..], k)
    ensures forall e :: EntryFor(e, revs, ps, k + 1) <==> EntryFor(e, revs[1..], ps[1..], k)
  {
    hide Differ, IsEntry;
    if k + 2 < |ps| {
      assert ps[1..][k + 1] == ps[k + 2] && ps[1..][k] == ps[k + 1];
    }
    if k + 1 < |revs| { assert revs[1..][k] == revs[k + 1]; }
  }

  lemma ListedBelow(h: seq<Entry>, rest: seq<Entry>, revs: seq<Revision>, ps: seq<Point>, k: nat)
    requires revs != [] && ps != [] && (forall e | e in rest :: e in h) && Listed(rest, revs[1..], ps[1..], k)
    ensures Listed(h, revs, ps, k + 1)
  {
    hide EntryFor, Changed;
    Shifted(revs, ps, k);
  }

  lemma OfChangeBelow(e: Entry, revs: seq<Revision>, ps: seq<Point>, c: nat)
    requires revs != [] && ps != [] && OfChange(e, revs[1..], ps[1..], c)
    ensures OfChange(e, revs, ps, c + 1)
  {
    hide EntryFor, Changed;
    var k :| 0 <= k < c && Changed(ps[1..], k) && EntryFor(e, revs[1..], ps[1..], k);
    Shifted(revs, ps, k);
    assert Changed(ps, k + 1) && EntryFor(e, revs, ps, k + 1);
  }

  lemma CreatedBelow(h: seq<Entry>, rest: seq<Entry>, revs: seq<Revision>, c: nat)
    requires revs != [] && c + 1 <= |revs| && CreatedLast(rest, revs[1..], c)
    requires h == rest || (|h| == |rest| + 1 && h[1..] == rest && !h[0].created)
    ensures CreatedLast(h, revs, c + 1)
  {
    var d := |h| - |rest|;
    forall i | 0 <= i < |h| ensures h[i].created <==> c + 1 < |revs| && i == |h| - 1 {
      if i >= d { assert h[i] == rest[i - d]; }
    }
  }

  lemma ListsOne(h: seq<Entry>, rest: seq<Entry>, revs: seq<Revision>, ps: seq<Point>, c: nat)
    requires revs != [] && c + 1 <= |revs| && |ps| == c + 2
    requires Lists(rest, revs[1..], ps[1..], c)
    requires if Changed(ps, 0) then |h| == |rest| + 1 && h[1..] == rest && EntryFor(h[0], revs, ps, 0) && !h[0].created
             else h == rest
    ensures Lists(h, revs, ps, c + 1)
  {
    hide Changed, EntryFor, Listed, OfChange, CreatedLast;
    assert Changed(ps, 0) ==> h == [h[0]] + rest;
    CreatedBelow(h, rest, revs, c);
    forall k | 0 <= k < c + 1 && Changed(ps, k) ensures Listed(h, revs, ps, k) {
      if k == 0 {
        HeadListed(h, revs, ps);
      } else {
        Shifted(revs, ps, k - 1);
        ListedBelow(h, rest, revs, ps, k - 1);
      }
    }
    forall e | e in h && !e.created ensures OfChange(e, revs, ps, c + 1) {
      if e in rest {
        OfChangeBelow(e, revs, ps, c);
      } else {
        HeadOfChange(h, revs, ps, c);
      }
    }
  }

  lemma HeadListed(h: seq<Entry>, revs: seq<Revision>, ps: seq<Point>)
    requires h != [] && EntryFor(h[0], revs, ps, 0)
    ensures Listed(h, revs, ps, 0)
  {
    hide EntryFor;
    assert h[0] in h;
  }

  lemma HeadOfChange(h: seq<Entry>, revs: seq<Revision>, ps: seq<Point>, c: nat)
    requires h != [] && Changed(ps, 0) && EntryFor(h[0], revs, ps, 0)
    ensures OfChange(h[0], revs, ps, c + 1)
  {
    hide EntryFor, Changed;
  }

  /** Which entries History has. The agent is followed back through every
      decodable revision, under its old key below a rename, down to the one that
      created it; each revision where it then looked different is listed, with
      the fields that differ; the creation is listed last; and nothing else is. */
  lemma {:induction false} HistoryWalk(revs: seq<Revision>, p: Point) returns (ps: seq<Point>, c: nat)
    ensures Path(revs, ps, c) && c <= |revs| && |ps| == c + 1 && ps[0] == p
    ensures Lists(Back(revs, p.agent, p.key, p.keys), revs, ps, c)
    decreases |revs|
  {
    hide SpecByKey, Diff, Differ, IsEntry, Was, Lists, Path;
    if revs == [] {
      ps, c := [p], 0;
      PathNone(revs, ps);
      ListsNone(revs, ps);
    } else if revs[0].agents.None? {
      ps, c := HistoryWalk(revs[1..], p);
      assert ([p] + ps)[1..] == ps && ([p] + ps)[1] == ps[0];
      SamePoint(Back(revs, p.agent, p.key, p.keys), revs, [p] + ps, c);
      PathCons(revs, p, ps, c);
      ps, c := [p] + ps, c + 1;
    } else {
      var snap := revs[0].agents.value;
      SpecIsWas(snap, p, revs[0].action);
      match SpecByKey(snap, p.key, revs[0].action, p.keys)
      case None =>
        ps, c := [p], 0;
        PathCreated(revs, ps);
        ListsCreated(revs, ps);
      case Some(x) =>
        var q := Point(x, FirstNonEmpty(x.key, p.key), KeysOf(snap));
        ps, c := HistoryWalk(revs[1..], q);
        EntryIs(revs[0], x, p.agent);
        var rest := Back(revs[1..], q.agent, q.key, q.keys);
        var h := Back(revs, p.agent, p.key, p.keys);
        assert ([p] + ps)[1..] == ps && ([p] + ps)[0] == p;
        if Diff(x, p.agent) != [] { assert h == [Entry(revs[0].id, false, Diff(x, p.agent), true)] + rest; }
        assert IsEntry(Entry(revs[0].id, false, Diff(x, p.agent), true), revs[0], ([p] + ps)[1].agent, ([p] + ps)[0].agent);
        ListsOne(h, rest, revs, [p] + ps, c);
        PathCons(revs, p, ps, c);
        ps, c := [p] + ps, c + 1;
    }
  }

  lemma PathNone(revs: seq<Revision>, ps: seq<Point>)
    requires revs == [] && |ps| == 1
    ensures Path(revs, ps, 0)
  {
  }

  lemma PathCreated(revs: seq<Revision>, ps: seq<Point>)
    requires revs != [] && |ps| == 1 && revs[0].agents.Some?
    requires forall x :: !Was(revs[0].agents.value, ps[0], revs[0].action, x)
    ensures Path(revs, ps, 0)
  {
  }

  lemma PathSize(revs: seq<Revision>, ps: seq<Point>, c: nat)
    requires Path(revs, ps, c)
    ensures c <= |revs| && |ps| == c + 1
  {
  }

  lemma PathCons(revs: seq<Revision>, p: Point, ps: seq<Point>, c: nat)
    requires revs != [] && Path(revs[1..], ps, c) && Goes(p, revs[0], ps[0])
    ensures Path(revs, [p] + ps, c + 1)
  {
    hide Goes, Was;
    var all := [p] + ps;
    forall k | 0 <= k < c + 1 ensures StepOk(revs, all, k) {
      if k > 0 {
        assert StepOk(revs[1..], ps, k - 1);
        assert all[k] == ps[k - 1] && all[k + 1] == ps[k] && revs[1..][k - 1] == revs[k];
      }
    }
  }

  lemma ListsNone(revs: seq<Revision>, ps: seq<Point>)
    requires revs == [] && |ps| == 1
    ensures Lists([], revs, ps, 0)
  {
  }

  lemma ListsCreated(revs: seq<Revision>, ps: seq<Point>)
    requires revs != [] && |ps| == 1
    ensures Lists([Entry(revs[0].id, true, [], false)], revs, ps, 0)
  {
  }

  lemma SamePoint(h: seq<Entry>, revs: seq<Revision>, ps: seq<Point>, c: nat)
    requires revs != [] && c + 1 <= |revs| && |ps| == c + 2 && ps[0] == ps[1] && Lists(h, revs[1..], ps[1..], c)
    ensures Lists(h, revs, ps, c + 1)
  {
    hide Lists;
    NotDiffer(ps[0].agent);
    ListsOne(h, h, revs, ps, c);
  }

  lemma NotDiffer(x: AgentSpec)
    ensures !Differ(x, x)
  {
  }

  /** The same of the whole history of an agent. */
  lemma HistoryLists(revs: seq<Revision>, current: seq<AgentSpec>, a: AgentSpec) returns (ps: seq<Point>, c: nat)
    ensures Path(revs, ps, c) && c <= |revs| && |ps| == c + 1 && ps[0] == Point(a, a.key, set x | x in current :: x.key)
    ensures Lists(History(revs, current, a), revs, ps, c)
  {
    ps, c := HistoryWalk(revs, Point(a, a.key, KeysOf(current)));
  }

  /** A rename: the key is missing in the snapshot, the revision is an update to
      it, and one agent's key is gone afterwards. The revision is listed, can be
      gone back to, and has the change from the old key to the new one; below it
      the agent is followed under its old key. */
  lemma RenameListed(revs: seq<Revision>, p: Point, x: AgentSpec)
    requires revs != [] && revs[0].agents.Some? && p.agent.key == p.key && x.key != ""
    requires NoneHas(revs[0].agents.value, p.key) && revs[0].action == "agent.update:" + p.key && Sole(revs[0].agents.value, p.keys, x)
    ensures var h := Back(revs, p.agent, p.key, p.keys);
            && h != [] && h[0].restorable && h[0].revision == revs[0].id
            && Change(Key, Str(x.key), Str(p.key)) in h[0].changes
            && h[1..] == Back(revs[1..], x, x.key, KeysOf(revs[0].agents.value))
  {
    hide SpecByKey, Diff, Sole;
    var snap := revs[0].agents.value;
    SpecIsWas(snap, p, revs[0].action);
    assert Was(snap, p, revs[0].action, x);
    SoleIn(snap, p.keys, x);
    EntryIs(revs[0], x, p.agent);
    assert Get(x, Key) != Get(p.agent, Key);
  }

  lemma SoleIn(snap: seq<AgentSpec>, keys: set<string>, x: AgentSpec)
    requires Sole(snap, keys, x)
    ensures x in snap
  {
  }

  // ---- the loops ----

  method DiffLoop(before: AgentSpec, after: AgentSpec) returns (out: seq<Change>)
    ensures out == Diff(before, after)
  {
    hide Get, DiffOf;
    out := [];
    assert FIELDS[0..] == FIELDS;
    for i := 0 to |FIELDS|
      invariant out + DiffOf(FIELDS[i..], before, after) == Diff(before, after)
    {
      DiffStep(i, out, before, after);
      var b, x := Get(before, FIELDS[i]), Get(after, FIELDS[i]);
      if b != x {
        out := out + [Change(FIELDS[i], b, x)];
      }
    }
    NoFields(before, after);
  }

  lemma NoFields(before: AgentSpec, after: AgentSpec)
    ensures DiffOf(FIELDS[|FIELDS|..], before, after) == []
  {
  }

  method SpecByKeyLoop(agents: seq<AgentSpec>, key: string, action: string, afterKeys: set<string>) returns (r: Option<AgentSpec>)
    ensures r == SpecByKey(agents, key, action, afterKeys)
  {
    assert agents[0..] == agents;
    for i := 0 to |agents|
      invariant ByKey(agents[i..], key) == ByKey(agents, key)
    {
      assert agents[i..][1..] == agents[i + 1..];
      if agents[i].key == key {
        return Some(agents[i]);
      }
    }
    if action != "agent.update:" + key {
      return None;
    }
    var gone := GoneLoop(agents, afterKeys);
    r := if |gone| == 1 then Some(gone[0]) else None;
  }

  method GoneLoop(agents: seq<AgentSpec>, afterKeys: set<string>) returns (gone: seq<AgentSpec>)
    ensures gone == Gone(agents, afterKeys)
  {
    gone := [];
    assert agents[0..] == agents;
    for i := 0 to |agents|
      invariant gone + Gone(agents[i..], afterKeys) == Gone(agents, afterKeys)
    {
      GoneStep(agents, i, gone, afterKeys);
      if agents[i].key !in afterKeys {
        gone := gone + [agents[i]];
      }
    }
    assert agents[|agents|..] == [];
  }

  lemma GoneStep(agents: seq<AgentSpec>, i: nat, gone: seq<AgentSpec>, afterKeys: set<string>)
    requires i < |agents|
    ensures gone + Gone(agents[i..], afterKeys)
         == (if agents[i].key !in afterKeys then gone + [agents[i]] else gone) + Gone(agents[i + 1..], afterKeys)
  {
    assert agents[i..][1..] == agents[i + 1..];
  }

  lemma DiffStep(i: nat, out: seq<Change>, before: AgentSpec, after: AgentSpec)
    requires i < |FIELDS|
    ensures var b, x := Get(before, FIELDS[i]), Get(after, FIELDS[i]);
            (out + DiffOf(FIELDS[i..], before, after)
             == (if b != x then out + [Change(FIELDS[i], b, x)] else out) + DiffOf(FIELDS[i + 1..], before, after))
  {
    hide Get;
    assert FIELDS[i..][1..] == FIELDS[i + 1..];
  }

  lemma BackStep(revs: seq<Revision>, i: nat, after: AgentSpec, key: string, afterKeys: set<string>)
    requires i < |revs|
    ensures var rev, more := revs[i], revs[i + 1..];
            Back(revs[i..], after, key, afterKeys) ==
            if rev.agents == None then Back(more, after, key, afterKeys)
            else
              match SpecByKey(rev.agents.value, key, rev.action, afterKeys)
              case None => [Entry(rev.id, true, [], false)]
              case Some(before) =>
                var changes := Diff(before, after);
                (if changes != [] then [Entry(rev.id, false, changes, true)] else [])
                + Back(more, before, FirstNonEmpty(before.key, key), KeysOf(rev.agents.value))
  {
    hide SpecByKey, Diff, KeysOf;
    assert revs[i..][0] == revs[i] && revs[i..][1..] == revs[i + 1..];
  }

  method HistoryLoop(revs: seq<Revision>, current: seq<AgentSpec>, a: AgentSpec) returns (out: seq<Entry>)
    ensures out == History(revs, current, a)
  {
    hide Diff, SpecByKey, FirstNonEmpty, Back, KeysOf;
    var afterKeys := KeysOf(current);
    var after, key := a, a.key;
    out := [];
    assert revs[0..] == revs;
    for i := 0 to |revs|
      invariant out + Back(revs[i..], after, key, afterKeys) == History(revs, current, a)
    {
      var rev := revs[i];
      BackStep(revs, i, after, key, afterKeys);
      if rev.agents == None {
        continue;
      }
      var before := SpecByKeyLoop(rev.agents.value, key, rev.action, afterKeys);
      afterKeys := KeysOf(rev.agents.value);
      if before == None {
        out := out + [Entry(rev.id, true, [], false)];
        return;
      }
      var changes := DiffLoop(before.value, after);
      if changes != [] {
        out := out + [Entry(rev.id, false, changes, true)];
      }
      after, key := before.value, FirstNonEmpty(before.value.key, key);
    }
    assert revs[|revs|..] == [];
    BackNone(after, key, afterKeys);
  }

  lemma BackNone(after: AgentSpec, key: string, afterKeys: set<string>)
    ensures Back([], after, key, afterKeys) == []
  {
  }

  method RestoreLoop(revs: seq<Revision>, current: seq<AgentSpec>, a: AgentSpec, rev: Revision) returns (r: Restored)
    ensures r == Restore(revs, current, a, rev)
  {
    hide History;
    var hist := HistoryLoop(revs, current, a);
    var key, known := a.key, false;
    var i := 0;
    assert hist[0..] == hist;
    while i < |hist|
      invariant 0 <= i <= |hist| && !known
      invariant KeyAt(hist[i..], rev.id, key) == KeyAt(hist, rev.id, a.key)
    {
      assert hist[i..][1..] == hist[i + 1..];
      key := KeyBeforeLoop(hist[i].changes, key);
      if hist[i].revision == rev.id {
        known := hist[i].restorable;
        break;
      }
      i := i + 1;
    }
    assert (key, known) == KeyAt(hist, rev.id, a.key);
    if !known {
      return Refused;
    }
    if rev.agents == None {
      return Missing;
    }
    var agents := rev.agents.value;
    var spec: Option<AgentSpec> := None;
    assert agents[..0] == [];
    for j := 0 to |agents|
      invariant spec == LastByKey(agents[..j], key)
    {
      assert agents[..j + 1][..j] == agents[..j];
      if agents[j].key == key {
        spec := Some(agents[j]);
      }
    }
    assert agents[..|agents|] == agents;
    r := if spec == None then Missing else From(spec.value);
  }

  method KeyBeforeLoop(changes: seq<Change>, key0: string) returns (key: string)
    ensures key == KeyBefore(changes, key0)
  {
    key := key0;
    assert changes[0..] == changes;
    for i := 0 to |changes|
      invariant KeyBefore(changes[i..], key) == KeyBefore(changes, key0)
    {
      assert changes[i..][1..] == changes[i + 1..];
      if changes[i].field.Key? && changes[i].before.Str? {
        key := changes[i].before.s;
      }
    }
  }
}
