/** Automations and the chat bots they share (internal/api/automations.go,
    automation_bot.go, server.go): any interleaving of create, update and delete
    requests, each project's under its own lazily made lock. Reads and deletes
    of the store succeed; writes may fail. */
module Automations {
  import opened Text

  /** bot: the channel, of an automation started by one; command: its custom
      command, or ""; rest: its other settings. */
  datatype Auto = Auto(project: string, bot: Option<nat>, command: string, rest: string)

  /** bots: each bot's project. orphans: the bots a failed update left behind. */
  datatype Store = Store(autos: map<nat, Auto>, bots: map<nat, string>, orphans: set<nat>, nextAuto: nat, nextBot: nat)

  datatype Op = Create | Update(id: nat) | Delete(id: nat)

  /** What a request asks for; a channel source with no bot is to get a new one. */
  datatype Wants = Wants(channel: bool, bot: Option<nat>, command: string, rest: string)

  datatype Place =
    | Arrived
    | Queued(mutex: nat)
    | Locked
    | Loaded
    | Saving(newBot: Option<nat>, bot: Option<nat>)
    | Writing(newBot: Option<nat>, auto: Auto)
    | Committing(id: nat, auto: Auto)
    | Releasing(idle: nat)
    | Removing(idle: nat)
    | Unlocking(ok: bool)
    | Left(ok: bool)

  /** was: the automation as it was read under the lock. */
  datatype Request = Request(op: Op, project: string, wants: Wants, was: Option<Auto>, place: Place)

  /** How a step goes: well; refused by a check; the store's version conflict;
      another failure of the store. */
  datatype Choice = Goes | Refuses | Conflicts | Fails

  // ---- one request, under its project's lock ----

  predicate Uses(st: Store, id: nat, project: string, bot: nat) {
    id in st.autos && st.autos[id].project == project && st.autos[id].bot == Some(bot)
  }

  /** botUsers is not 0. */
  predicate InUse(st: Store, project: string, bot: nat) {
    exists id | id in st.autos :: Uses(st, id, project, bot)
  }

  /** Another automation of the project has the command on the bot. */
  predicate Taken(st: Store, project: string, op: Op, bot: nat, command: string) {
    exists id | id in st.autos :: Uses(st, id, project, bot) && st.autos[id].command == command && op != Update(id)
  }

  predicate Refused(st: Store, r: Request, bot: Option<nat>) {
    bot.Some? &&
    (bot.value !in st.bots || st.bots[bot.value] != r.project
     || (r.wants.command != "" && Taken(st, r.project, r.op, bot.value, r.wants.command)))
  }

  function Without(st: Store, bot: Option<nat>): Store {
    if bot.Some? then st.(bots := st.bots - {bot.value}) else st
  }

  /** What an update that failed leaves unused. */
  function Orphaned(st: Store, project: string, bot: Option<nat>): Store {
    if bot.Some? && !InUse(st, project, bot.value) then st.(orphans := st.orphans + {bot.value}) else st
  }

  function OldBot(r: Request): Option<nat> {
    if r.was.Some? then r.was.value.bot else None
  }

  predicate HasLock(r: Request) {
    !r.place.Arrived? && !r.place.Queued? && !r.place.Left?
  }

  /** The next step of a request that holds its project's lock. */
  function Act(st: Store, r: Request, c: Choice): (Store, Request)
    requires HasLock(r) && !r.place.Unlocking?
  {
    var refused := r.(place := Unlocking(false));
    match r.place
    case Locked =>
      if r.op.Create? then (st, r.(place := Loaded))
      else if c != Goes || r.op.id !in st.autos then (st, refused)
      else (st, r.(was := Some(st.autos[r.op.id]), place := Loaded))
    case Loaded => if r.op.Delete? then Deleted(st, r, c) else Bot(st, r, c)
    case Saving(newBot, bot) =>
      if c != Goes || Refused(st, r, bot) then (Without(st, newBot), refused)
      else (st, r.(place := Writing(newBot, Auto(r.project, bot, if r.wants.channel then r.wants.command else "", r.wants.rest))))
    case Writing(newBot, a) => Written(st, r, newBot, a, c)
    case Committing(id, a) => Committed(st, r, id, a, c)
    case Releasing(bot) =>
      (st, r.(place := if InUse(st, r.project, bot) then Unlocking(true) else Removing(bot)))
    case Removing(bot) => (Without(st, Some(bot)), r.(place := Unlocking(true)))
  }

  function Deleted(st: Store, r: Request, c: Choice): (Store, Request)
    requires r.op.Delete?
  {
    if c != Goes || r.op.id !in st.autos then (st, r.(place := Unlocking(false)))
    else (st.(autos := st.autos - {r.op.id}), r.(place := if OldBot(r).Some? then Releasing(OldBot(r).value) else Unlocking(true)))
  }

  /** saveBot. */
  function Bot(st: Store, r: Request, c: Choice): (Store, Request) {
    if !r.wants.channel then (st, r.(place := Saving(None, None)))
    else if c != Goes then (st, r.(place := Unlocking(false)))
    else if r.wants.bot.Some? then (st, r.(place := Saving(None, r.wants.bot)))
    else (st.(bots := st.bots[st.nextBot := r.project], nextBot := st.nextBot + 1), r.(place := Saving(Some(st.nextBot), Some(st.nextBot))))
  }

  function Written(st: Store, r: Request, newBot: Option<nat>, a: Auto, c: Choice): (Store, Request) {
    var refused := r.(place := Unlocking(false));
    match r.op
    case Create =>
      if c != Goes then (Without(st, newBot), refused)
      else (st.(autos := st.autos[st.nextAuto := a], nextAuto := st.nextAuto + 1), r.(place := Committing(st.nextAuto, a)))
    case Update(id) =>
      if c == Conflicts then (Without(st, newBot), refused)
      else if c != Goes || id !in st.autos then (Orphaned(st, r.project, newBot), refused)
      else (st.(autos := st.autos[id := a]), r.(place := Committing(id, a)))
    case Delete(_) => (st, refused)
  }

  /** commitBot, which writes only a bot that was there before. */
  function Committed(st: Store, r: Request, id: nat, a: Auto, c: Choice): (Store, Request) {
    if c != Goes && r.wants.channel && r.wants.bot.Some? then
      (if r.op.Create? then st.(autos := st.autos - {id}) else Orphaned(st, r.project, OldBot(r)),
       r.(place := Unlocking(false)))
    else if r.op.Update? && OldBot(r).Some? && OldBot(r) != a.bot then (st, r.(place := Releasing(OldBot(r).value)))
    else (st, r.(place := Unlocking(true)))
  }

  // ---- what the lock's holder keeps of its project ----

  predicate Owns(st: Store, project: string, bot: nat) {
    bot in st.bots && st.bots[bot] == project
  }

  /** A bot the request made and no automation names yet. */
  predicate Fresh(st: Store, r: Request, newBot: Option<nat>, bot: Option<nat>) {
    if newBot.Some?
    then r.wants.channel && r.wants.bot.None? && bot == newBot && Owns(st, r.project, newBot.value) && !InUse(st, r.project, newBot.value)
    else bot == if r.wants.channel then r.wants.bot else None
  }

  /** The bot is idle only if a failed update left it so, this automation aside. */
  predicate Covered(st: Store, project: string, bot: nat, aside: nat) {
    bot in st.orphans || exists id | id in st.autos :: id != aside && Uses(st, id, project, bot)
  }

  /** The bot is of the project, or gone. */
  predicate Theirs(st: Store, project: string, bot: nat) {
    bot < st.nextBot && (bot in st.bots ==> st.bots[bot] == project)
  }

  predicate HolderOk(st: Store, r: Request) {
    && (r.op.Create? ==> r.was == None)
    && (OldBot(r).Some? ==> Theirs(st, r.project, OldBot(r).value))
    && (r.place.Loaded? || r.place.Saving? || r.place.Writing? ==>
          r.op.Create? || (r.op.id in st.autos && r.was == Some(st.autos[r.op.id])))
    && (r.place.Saving? || r.place.Writing? || r.place.Committing? ==> !r.op.Delete?)
    && (r.place.Saving? ==> Fresh(st, r, r.place.newBot, r.place.bot))
    && (r.place.Writing? ==>
          && r.place.auto.project == r.project && Fresh(st, r, r.place.newBot, r.place.auto.bot)
          && (r.place.auto.bot.Some? ==>
                && Owns(st, r.project, r.place.auto.bot.value)
                && (r.place.auto.command != "" ==> !Taken(st, r.project, r.op, r.place.auto.bot.value, r.place.auto.command))))
    && (r.place.Committing? ==>
          && r.place.id in st.autos && st.autos[r.place.id] == r.place.auto && r.place.auto.project == r.project
          && (r.op.Create? && r.wants.channel && r.wants.bot.Some? ==>
                r.place.auto.bot == r.wants.bot && Covered(st, r.project, r.wants.bot.value, r.place.id))
          && (OldBot(r).Some? ==> Owns(st, r.project, OldBot(r).value))
          && (OldBot(r).Some? && OldBot(r) == r.place.auto.bot ==> InUse(st, r.project, OldBot(r).value)))
    && (r.place.Releasing? ==> Theirs(st, r.project, r.place.idle))
    && (r.place.Removing? ==> Theirs(st, r.project, r.place.idle) && !InUse(st, r.project, r.place.idle))
  }

  /** The request will see to it that the bot is used or removed. */
  predicate Minds(r: Request, bot: nat) {
    match r.place
    case Saving(newBot, _) => newBot == Some(bot)
    case Writing(newBot, _) => newBot == Some(bot)
    case Committing(_, _) => OldBot(r) == Some(bot)
    case Releasing(b) => b == bot
    case Removing(b) => b == bot
    case _ => false
  }

  ghost predicate BotsNamed(st: Store, project: string) {
    forall id | id in st.autos && st.autos[id].project == project && st.autos[id].bot.Some? :: Owns(st, project, st.autos[id].bot.value)
  }

  ghost predicate CommandsUnique(st: Store, project: string) {
    forall i, j | i in st.autos && j in st.autos && st.autos[i].project == st.autos[j].project == project && st.autos[i].bot.Some?
                  && st.autos[i].bot == st.autos[j].bot && st.autos[i].command == st.autos[j].command != "" :: i == j
  }

  ghost predicate BotsMinded(st: Store, project: string, holder: Option<Request>) {
    forall bot | Owns(st, project, bot) :: InUse(st, project, bot) || bot in st.orphans || (holder.Some? && Minds(holder.value, bot))
  }

  ghost predicate Numbered(st: Store) {
    (forall id | id in st.autos :: id < st.nextAuto) && (forall bot | bot in st.bots :: bot < st.nextBot)
  }

  ghost predicate Bare(st: Store, project: string) {
    BotsNamed(st, project) && CommandsUnique(st, project) && Numbered(st)
  }

  /** An update or delete is of an automation of its project, gone or not. */
  predicate OpOk(st: Store, r: Request) {
    !r.op.Create? ==> r.op.id < st.nextAuto && (r.op.id in st.autos ==> st.autos[r.op.id].project == r.project)
  }

  /** Only the project's automations and bots changed. */
  ghost predicate Frame(st: Store, st': Store, project: string) {
    && (forall id :: id in st.autos && st.autos[id].project != project ==> id in st'.autos && st'.autos[id] == st.autos[id])
    && (forall id :: id in st'.autos && st'.autos[id].project != project ==> id in st.autos && st'.autos[id] == st.autos[id])
    && (forall bot, p :: p != project ==> (Owns(st, p, bot) <==> Owns(st', p, bot)))
    && st.orphans <= st'.orphans && st.nextAuto <= st'.nextAuto && st.nextBot <= st'.nextBot
    && (forall id | id in st'.autos && id !in st.autos :: id >= st.nextAuto)
    && (forall bot | bot in st'.bots && bot !in st.bots :: bot >= st.nextBot)
    && (forall id | id in st.autos && id in st'.autos :: st'.autos[id].project == st.autos[id].project)
  }

  // ---- what each write of the store keeps ----

  /** The store with one automation written. */
  function WithAuto(st: Store, id: nat, a: Auto): Store {
    st.(autos := st.autos[id := a], nextAuto := if id in st.autos then st.nextAuto else id + 1)
  }

  lemma SetOk(st: Store, project: string, op: Op, id: nat, a: Auto)
    requires Bare(st, project) && a.project == project
    requires if id in st.autos then op == Update(id) && st.autos[id].project == project else op.Create? && id == st.nextAuto
    requires a.bot.Some? ==> Owns(st, project, a.bot.value) && (a.command != "" ==> !Taken(st, project, op, a.bot.value, a.command))
    ensures var st' := WithAuto(st, id, a);
            && Bare(st', project) && Frame(st, st', project)
            && (a.bot.Some? ==> InUse(st', project, a.bot.value))
            && (forall b: nat | InUse(st, project, b) :: InUse(st', project, b) || (id in st.autos && st.autos[id].bot == Some(b)))
            && (id !in st.autos ==> forall b: nat | InUse(st, project, b) :: Covered(st', project, b, id))
  {
    hide InUse, Covered, CommandsUnique, Taken;
    SetUses(st, project, id, a);
    SetUnique(st, WithAuto(st, id, a), project, op, id, a);
  }

  lemma SetUses(st: Store, project: string, id: nat, a: Auto)
    requires a.project == project
    ensures var st' := WithAuto(st, id, a);
            && (a.bot.Some? ==> InUse(st', project, a.bot.value))
            && (forall b: nat | InUse(st, project, b) :: InUse(st', project, b) || (id in st.autos && st.autos[id].bot == Some(b)))
            && (id !in st.autos ==> forall b: nat | InUse(st, project, b) :: Covered(st', project, b, id))
  {
    var st' := WithAuto(st, id, a);
    if a.bot.Some? { assert Uses(st', id, project, a.bot.value); }
    forall b: nat | InUse(st, project, b)
      ensures InUse(st', project, b) || (id in st.autos && st.autos[id].bot == Some(b))
      ensures id !in st.autos ==> Covered(st', project, b, id)
    {
      var i :| i in st.autos && Uses(st, i, project, b);
      assert i != id ==> Uses(st', i, project, b);
    }
  }

  lemma SetUnique(st: Store, st': Store, project: string, op: Op, id: nat, a: Auto)
    requires CommandsUnique(st, project) && st'.autos == st.autos[id := a]
    requires id in st.autos ==> op == Update(id)
    requires a.bot.Some? && a.command != "" ==> !Taken(st, project, op, a.bot.value, a.command)
    requires op == Update(id) || op == Create
    ensures CommandsUnique(st', project)
  {
    if a.bot.Some? && a.command != "" {
      forall i | i in st.autos && i != id ensures !(Uses(st, i, project, a.bot.value) && st.autos[i].command == a.command) {}
    }
  }

  lemma DeleteOk(st: Store, project: string, id: nat)
    requires Bare(st, project) && id in st.autos && st.autos[id].project == project
    ensures var st' := st.(autos := st.autos - {id});
            && Bare(st', project) && Frame(st, st', project)
            && (forall b: nat | InUse(st, project, b) :: InUse(st', project, b) || st.autos[id].bot == Some(b))
            && (forall b: nat | Covered(st, project, b, id) :: InUse(st', project, b) || b in st.orphans)
  {
    var st' := st.(autos := st.autos - {id});
    forall b: nat | InUse(st, project, b) ensures InUse(st', project, b) || st.autos[id].bot == Some(b) {
      var i :| i in st.autos && Uses(st, i, project, b);
      assert i != id ==> Uses(st', i, project, b);
    }
    forall b: nat | Covered(st, project, b, id) ensures InUse(st', project, b) || b in st.orphans {
      if b !in st.orphans {
        var i :| i in st.autos && i != id && Uses(st, i, project, b);
        assert Uses(st', i, project, b);
      }
    }
  }

  lemma DropOk(st: Store, project: string, bot: nat)
    requires Bare(st, project) && (bot in st.bots ==> st.bots[bot] == project) && !InUse(st, project, bot)
    ensures var st' := st.(bots := st.bots - {bot});
            && Bare(st', project) && Frame(st, st', project)
            && (forall b: nat :: InUse(st', project, b) <==> InUse(st, project, b))
            && (forall b: nat :: Owns(st', project, b) <==> Owns(st, project, b) && b != bot)
  {
    var st' := st.(bots := st.bots - {bot});
    forall id | id in st.autos && st.autos[id].project == project && st.autos[id].bot.Some?
      ensures Owns(st', project, st.autos[id].bot.value)
    {
      assert Uses(st, id, project, st.autos[id].bot.value);
    }
    UsesSame(st, st', project);
  }

  lemma UsesSame(st: Store, st': Store, project: string)
    requires st'.autos == st.autos
    ensures forall b: nat :: InUse(st', project, b) <==> InUse(st, project, b)
  {
    forall b: nat ensures InUse(st', project, b) <==> InUse(st, project, b) {
      forall id ensures Uses(st', id, project, b) <==> Uses(st, id, project, b) {}
    }
  }

  lemma NewBotOk(st: Store, project: string)
    requires Bare(st, project)
    ensures var st' := st.(bots := st.bots[st.nextBot := project], nextBot := st.nextBot + 1);
            && Bare(st', project) && Frame(st, st', project)
            && (forall b: nat :: InUse(st', project, b) <==> InUse(st, project, b))
            && (forall b: nat :: Owns(st', project, b) <==> Owns(st, project, b) || b == st.nextBot)
            && !InUse(st', project, st.nextBot)
  {
    var st' := st.(bots := st.bots[st.nextBot := project], nextBot := st.nextBot + 1);
    UsesSame(st, st', project);
    forall i | i in st.autos ensures !Uses(st, i, project, st.nextBot) {
      assert Uses(st, i, project, st.nextBot) ==> Owns(st, project, st.nextBot);
    }
  }

  lemma OrphanOk(st: Store, project: string, bot: Option<nat>)
    requires Bare(st, project)
    ensures var st' := Orphaned(st, project, bot);
            && Bare(st', project) && Frame(st, st', project)
            && (forall b: nat :: InUse(st', project, b) <==> InUse(st, project, b))
            && (bot.Some? ==> InUse(st', project, bot.value) || bot.value in st'.orphans)
  {
    UsesSame(st, Orphaned(st, project, bot), project);
  }

  lemma SameOk(st: Store, project: string)
    ensures Frame(st, st, project)
  {
  }

  // ---- what each step keeps ----

  ghost predicate ActOk(st: Store, r: Request, st': Store, r': Request) {
    && Bare(st', r.project) && BotsMinded(st', r.project, Some(r')) && HolderOk(st', r')
    && Frame(st, st', r.project)
    && r'.project == r.project && r'.op == r.op && HasLock(r')
  }

  ghost predicate ActReady(st: Store, r: Request) {
    && Bare(st, r.project) && BotsMinded(st, r.project, Some(r)) && HolderOk(st, r)
    && OpOk(st, r) && HasLock(r) && !r.place.Unlocking?
  }

  lemma LockedOk(st: Store, r: Request, c: Choice)
    requires ActReady(st, r) && r.place.Locked?
    ensures var (st', r') := Act(st, r, c); ActOk(st, r, st', r')
  {
    hide InUse, Uses, Taken, Covered, Bare, Frame;
    SameOk(st, r.project);
    BareBots(st, r.project);
  }

  lemma DeletedOk(st: Store, r: Request, c: Choice)
    requires ActReady(st, r) && r.place.Loaded? && r.op.Delete?
    ensures var (st', r') := Act(st, r, c); ActOk(st, r, st', r')
  {
    hide InUse, Uses, Taken, Covered, Bare, Frame;
    SameOk(st, r.project);
    if c == Goes {
      DeleteOk(st, r.project, r.op.id);
    }
  }

  lemma BotOk(st: Store, r: Request, c: Choice)
    requires ActReady(st, r) && r.place.Loaded? && !r.op.Delete?
    ensures var (st', r') := Act(st, r, c); ActOk(st, r, st', r')
  {
    hide InUse, Uses, Taken, Covered, Bare, Frame;
    SameOk(st, r.project);
    NewBotOk(st, r.project);
  }

  lemma SavingOk(st: Store, r: Request, c: Choice)
    requires ActReady(st, r) && r.place.Saving?
    ensures var (st', r') := Act(st, r, c); ActOk(st, r, st', r')
  {
    hide InUse, Uses, Taken, Covered, Bare, Frame;
    SameOk(st, r.project);
    if r.place.newBot.Some? { DropOk(st, r.project, r.place.newBot.value); }
  }

  lemma WritingOk(st: Store, r: Request, c: Choice)
    requires ActReady(st, r) && r.place.Writing?
    ensures var (st', r') := Act(st, r, c); ActOk(st, r, st', r')
  {
    hide InUse, Uses, Taken, Bare, Frame;
    SameOk(st, r.project);
    if c == Goes {
      WrittenOk(st, r);
    } else {
      if r.place.newBot.Some? { DropOk(st, r.project, r.place.newBot.value); }
      OrphanOk(st, r.project, r.place.newBot);
    }
  }

  lemma WrittenOk(st: Store, r: Request)
    requires ActReady(st, r) && r.place.Writing?
    ensures var (st', r') := Act(st, r, Goes); ActOk(st, r, st', r')
  {
    hide InUse, Uses, Taken, Bare, Frame;
    if r.op.Create? { NextIsNew(st, r.project); } else { BareOwns(st, r.project, r.op.id); }
    SetOk(st, r.project, r.op, if r.op.Create? then st.nextAuto else r.op.id, r.place.auto);
  }

  lemma CommittingOk(st: Store, r: Request, c: Choice)
    requires ActReady(st, r) && r.place.Committing?
    ensures var (st', r') := Act(st, r, c); ActOk(st, r, st', r')
  {
    hide InUse, Uses, Taken, Covered, Bare, Frame;
    SameOk(st, r.project);
    OrphanOk(st, r.project, OldBot(r));
    DeleteOk(st, r.project, r.place.id);
  }

  lemma ReleasingOk(st: Store, r: Request, c: Choice)
    requires ActReady(st, r) && r.place.Releasing?
    ensures var (st', r') := Act(st, r, c); ActOk(st, r, st', r')
  {
    hide InUse, Uses, Taken, Covered, Bare, Frame;
    SameOk(st, r.project);
  }

  lemma RemovingOk(st: Store, r: Request, c: Choice)
    requires ActReady(st, r) && r.place.Removing?
    ensures var (st', r') := Act(st, r, c); ActOk(st, r, st', r')
  {
    hide InUse, Uses, Taken, Covered, Bare, Frame;
    DropOk(st, r.project, r.place.idle);
  }

  lemma BareBots(st: Store, project: string)
    requires Bare(st, project)
    ensures forall id | id in st.autos && st.autos[id].project == project && st.autos[id].bot.Some? :: Theirs(st, project, st.autos[id].bot.value)
  {
  }

  lemma BareOwns(st: Store, project: string, id: nat)
    requires Bare(st, project) && id in st.autos && st.autos[id].project == project
    ensures st.autos[id].bot.Some? ==> Owns(st, project, st.autos[id].bot.value)
  {
  }

  lemma NextIsNew(st: Store, project: string)
    requires Bare(st, project)
    ensures st.nextAuto !in st.autos
  {
  }

  lemma ActKeeps(st: Store, r: Request, c: Choice)
    requires ActReady(st, r)
    ensures var (st', r') := Act(st, r, c); ActOk(st, r, st', r')
  {
    hide Act, ActOk, Bare, BotsMinded, HolderOk, OpOk;
    match r.place
    case Locked => LockedOk(st, r, c);
    case Loaded => if r.op.Delete? { DeletedOk(st, r, c); } else { BotOk(st, r, c); }
    case Saving(_, _) => SavingOk(st, r, c);
    case Writing(_, _) => WritingOk(st, r, c);
    case Committing(_, _) => CommittingOk(st, r, c);
    case Releasing(_) => ReleasingOk(st, r, c);
    case Removing(_) => RemovingOk(st, r, c);
  }

  /** Another project's invariant does not see the step. */
  lemma FrameKeeps(st: Store, st': Store, project: string, other: string, holder: Option<Request>)
    requires Frame(st, st', project) && other != project && Bare(st, other) && Bare(st', project)
    requires BotsMinded(st, other, holder)
    requires holder.Some? ==> holder.value.project == other && HolderOk(st, holder.value) && OpOk(st, holder.value)
    ensures Bare(st', other) && BotsMinded(st', other, holder)
    ensures holder.Some? ==> HolderOk(st', holder.value) && OpOk(st', holder.value)
  {
    hide HolderOk, BotsMinded, OpOk;
    FrameUses(st, st', project, other);
    FrameUnique(st, st', project, other);
    if holder.Some? { FrameHolder(st, st', project, holder.value); }
    FrameMinded(st, st', project, other, holder);
  }

  lemma FrameUses(st: Store, st': Store, project: string, other: string)
    requires Frame(st, st', project) && other != project
    ensures forall id, b: nat :: Uses(st', id, other, b) <==> Uses(st, id, other, b)
    ensures forall b: nat :: InUse(st', other, b) <==> InUse(st, other, b)
  {
    forall id, b: nat ensures Uses(st', id, other, b) <==> Uses(st, id, other, b) {}
  }

  lemma FrameUnique(st: Store, st': Store, project: string, other: string)
    requires Frame(st, st', project) && other != project && Bare(st, other) && Bare(st', project)
    ensures Bare(st', other)
  {
  }

  lemma FrameMinded(st: Store, st': Store, project: string, other: string, holder: Option<Request>)
    requires Frame(st, st', project) && other != project && BotsMinded(st, other, holder)
    ensures BotsMinded(st', other, holder)
  {
    hide InUse;
    FrameUses(st, st', project, other);
  }

  lemma FrameHolder(st: Store, st': Store, project: string, r: Request)
    requires Frame(st, st', project) && r.project != project && HolderOk(st, r) && OpOk(st, r)
    ensures HolderOk(st', r) && OpOk(st', r)
  {
    hide InUse, Uses, Taken, Covered;
    FrameUses(st, st', project, r.project);
    FrameOthers(st, st', project, r.project);
    FrameTheirs(st, st', project, r.project);
  }

  lemma FrameTheirs(st: Store, st': Store, project: string, other: string)
    requires Frame(st, st', project) && other != project
    ensures forall b: nat :: Theirs(st, other, b) ==> Theirs(st', other, b)
  {
    forall b: nat | Theirs(st, other, b) ensures Theirs(st', other, b) {
      assert Owns(st, other, b) <==> Owns(st', other, b);
    }
  }

  lemma FrameOthers(st: Store, st': Store, project: string, other: string)
    requires Frame(st, st', project) && other != project
    ensures forall op, b: nat, command :: Taken(st', other, op, b, command) ==> Taken(st, other, op, b, command)
    ensures forall b: nat, aside: nat :: Covered(st, other, b, aside) ==> Covered(st', other, b, aside)
  {
    forall op, b: nat, command | Taken(st', other, op, b, command) ensures Taken(st, other, op, b, command) {
      var id :| id in st'.autos && Uses(st', id, other, b) && st'.autos[id].command == command && op != Update(id);
      assert Uses(st, id, other, b);
    }
    forall b: nat, aside: nat | Covered(st, other, b, aside) ensures Covered(st', other, b, aside) {
      if b !in st.orphans {
        var id :| id in st.autos && id != aside && Uses(st, id, other, b);
        assert Uses(st', id, other, b);
      }
    }
  }

  lemma FrameOp(st: Store, st': Store, project: string, r: Request)
    requires Frame(st, st', project) && OpOk(st, r)
    ensures OpOk(st', r)
  {
  }

  // ---- the requests together ----

  /** locks: lockAutomations' map; holders: the request that holds a mutex. */
  datatype Office = Office(store: Store, locks: map<string, nat>, mutexes: nat, holders: map<nat, nat>, requests: seq<Request>)

  datatype Event = Arrives(op: Op, project: string, wants: Wants) | Does(i: nat, c: Choice)

  function Initial(): Office {
    Office(Store(map[], map[], {}, 0, 0), map[], 0, map[], [])
  }

  function Put(s: Office, i: nat, r: Request): Office
    requires i < |s.requests|
  {
    s.(requests := s.requests[i := r])
  }

  /** What an event does; None where it cannot happen or has to wait. */
  function Next(s: Office, e: Event): Option<Office> {
    match e
    case Arrives(op, project, wants) =>
      if op.Create? then Some(s.(requests := s.requests + [Request(op, project, wants, None, Arrived)]))
      else if op.id !in s.store.autos then None
      else Some(s.(requests := s.requests + [Request(op, s.store.autos[op.id].project, wants, None, Arrived)]))
    case Does(i, c) =>
      if i >= |s.requests| then None
      else
        var r := s.requests[i];
        match r.place
        case Arrived =>
          if r.project in s.locks then Some(Put(s, i, r.(place := Queued(s.locks[r.project]))))
          else Some(Put(s.(locks := s.locks[r.project := s.mutexes], mutexes := s.mutexes + 1), i, r.(place := Queued(s.mutexes))))
        case Queued(m) =>
          if m in s.holders then None
          else Some(Put(s.(holders := s.holders[m := i]), i, r.(place := Locked)))
        case Unlocking(ok) =>
          if r.project !in s.locks then None
          else Some(Put(s.(holders := s.holders - {s.locks[r.project]}), i, r.(place := Left(ok))))
        case Left(_) => None
        case _ =>
          var (st', r') := Act(s.store, r, c);
          Some(Put(s.(store := st'), i, r'))
  }

  function Run(s: Office, es: seq<Event>): Option<Office>
    decreases |es|
  {
    if es == [] then Some(s)
    else if Next(s, es[0]).None? then None
    else Run(Next(s, es[0]).value, es[1..])
  }

  /** A request holds its project's mutex, and no two projects share one. */
  ghost predicate LocksInv(s: Office) {
    && (forall p | p in s.locks :: s.locks[p] < s.mutexes)
    && (forall p, q | p in s.locks && q in s.locks && s.locks[p] == s.locks[q] :: p == q)
    && (forall m | m in s.holders :: m < s.mutexes && Holds(s, s.holders[m], m))
    && (forall i | 0 <= i < |s.requests| :: Placed(s, i))
  }

  ghost predicate Holds(s: Office, i: nat, m: nat) {
    i < |s.requests| && HasLock(s.requests[i]) && s.requests[i].project in s.locks && s.locks[s.requests[i].project] == m
  }

  ghost predicate Placed(s: Office, i: nat)
    requires i < |s.requests|
  {
    var r := s.requests[i];
    && (HasLock(r) ==> r.project in s.locks && s.locks[r.project] in s.holders && s.holders[s.locks[r.project]] == i)
    && (r.place.Queued? ==> r.project in s.locks && s.locks[r.project] == r.place.mutex)
    && (r.place.Arrived? || r.place.Queued? ==> r.was == None)
  }

  /** The request in the project's critical section. */
  function Holder(s: Office, project: string): Option<Request> {
    if project in s.locks && s.locks[project] in s.holders && s.holders[s.locks[project]] < |s.requests|
    then Some(s.requests[s.holders[s.locks[project]]]) else None
  }

  ghost predicate ProjectInv(st: Store, project: string, holder: Option<Request>) {
    && Bare(st, project) && BotsMinded(st, project, holder)
    && (holder.Some? ==> holder.value.project == project && HolderOk(st, holder.value) && OpOk(st, holder.value))
  }

  ghost predicate Inv(s: Office) {
    && LocksInv(s)
    && (forall p :: ProjectInv(s.store, p, Holder(s, p)))
    && (forall i | 0 <= i < |s.requests| :: OpOk(s.store, s.requests[i]))
  }

  lemma ArriveKeeps(s: Office, e: Event)
    requires Inv(s) && e.Arrives? && Next(s, e).Some?
    ensures Inv(Next(s, e).value)
  {
    hide ProjectInv;
    var t := Next(s, e).value;
    forall i | 0 <= i < |t.requests| ensures Placed(t, i) && OpOk(t.store, t.requests[i]) {
      if i < |s.requests| { assert Placed(s, i); } else { NumberedOf(s); }
    }
    forall p ensures Holder(t, p) == Holder(s, p) {}
  }

  lemma NumberedOf(s: Office)
    requires Inv(s)
    ensures Numbered(s.store)
  {
    assert ProjectInv(s.store, "", Holder(s, ""));
  }

  lemma SameOp(st: Store, r: Request)
    requires OpOk(st, r)
    ensures forall place :: OpOk(st, r.(place := place))
  {
  }

  lemma Places(r: Request)
    ensures r.place.Arrived? || r.place.Queued? ==> !HasLock(r)
  {
  }

  lemma LookUpKeeps(s: Office, i: nat, c: Choice)
    requires Inv(s) && i < |s.requests| && s.requests[i].place.Arrived?
    ensures Inv(Next(s, Does(i, c)).value)
  {
    hide ProjectInv, HasLock, OpOk;
    SameOp(s.store, s.requests[i]);
    var t := Next(s, Does(i, c)).value;
    Places(s.requests[i]);
    Places(t.requests[i]);
    assert Placed(s, i);
    forall j | 0 <= j < |t.requests| ensures Placed(t, j) && OpOk(t.store, t.requests[j]) {
      assert Placed(s, j);
    }
    LookUpHolders(s, i, c);
  }

  lemma LookUpHolders(s: Office, i: nat, c: Choice)
    requires LocksInv(s) && i < |s.requests| && s.requests[i].place.Arrived?
    ensures forall p :: Holder(Next(s, Does(i, c)).value, p) == Holder(s, p)
  {
    hide HasLock, Placed;
    Places(s.requests[i]);
  }

  lemma AcquireKeeps(s: Office, i: nat, c: Choice)
    requires Inv(s) && Next(s, Does(i, c)).Some? && s.requests[i].place.Queued?
    ensures Inv(Next(s, Does(i, c)).value)
  {
    hide ProjectInv;
    var t := Next(s, Does(i, c)).value;
    var p := s.requests[i].project;
    assert Placed(s, i);
    forall j | 0 <= j < |t.requests| ensures Placed(t, j) && OpOk(t.store, t.requests[j]) {
      assert Placed(s, j);
    }
    forall q ensures ProjectInv(t.store, q, Holder(t, q)) {
      assert ProjectInv(s.store, q, Holder(s, q));
      if q == p { LockedInv(s.store, p, t.requests[i]); } else { assert Holder(t, q) == Holder(s, q); }
    }
  }

  lemma LockedInv(st: Store, project: string, r: Request)
    requires ProjectInv(st, project, None) && OpOk(st, r) && r.project == project && r.was == None && r.place.Locked?
    ensures ProjectInv(st, project, Some(r))
  {
  }

  lemma ReleaseKeeps(s: Office, i: nat, c: Choice)
    requires Inv(s) && Next(s, Does(i, c)).Some? && s.requests[i].place.Unlocking?
    ensures Inv(Next(s, Does(i, c)).value)
  {
    hide ProjectInv;
    var t := Next(s, Does(i, c)).value;
    var p := s.requests[i].project;
    assert Placed(s, i);
    forall j | 0 <= j < |t.requests| ensures Placed(t, j) && OpOk(t.store, t.requests[j]) {
      assert Placed(s, j);
    }
    forall q ensures ProjectInv(t.store, q, Holder(t, q)) {
      assert ProjectInv(s.store, q, Holder(s, q));
      if q == p { UnlockedInv(s.store, p, s.requests[i]); } else { assert Holder(t, q) == Holder(s, q); }
    }
  }

  lemma UnlockedInv(st: Store, project: string, r: Request)
    requires ProjectInv(st, project, Some(r)) && r.place.Unlocking?
    ensures ProjectInv(st, project, None)
  {
    hide Bare, HolderOk;
  }

  lemma ActStepKeeps(s: Office, i: nat, c: Choice)
    requires Inv(s) && i < |s.requests| && HasLock(s.requests[i]) && !s.requests[i].place.Unlocking?
    ensures Inv(Next(s, Does(i, c)).value)
  {
    hide ProjectInv, Act, Frame;
    var r, p := s.requests[i], s.requests[i].project;
    var (st', r') := Act(s.store, r, c);
    var t := Next(s, Does(i, c)).value;
    assert t == Put(s.(store := st'), i, r');
    assert Placed(s, i);
    assert Holder(s, p) == Some(r);
    ActInv(s.store, r, c);
    forall j | 0 <= j < |t.requests| ensures Placed(t, j) && OpOk(t.store, t.requests[j]) {
      assert Placed(s, j);
      if j != i { FrameOp(s.store, st', p, s.requests[j]); }
    }
    forall q ensures ProjectInv(t.store, q, Holder(t, q)) {
      if q != p {
        OtherHolder(s, t, i, r', q);
        FrameInv(s.store, st', p, q, Holder(s, q), r');
      }
    }
  }

  lemma OtherHolder(s: Office, t: Office, i: nat, r': Request, q: string)
    requires LocksInv(s) && i < |s.requests| && HasLock(s.requests[i]) && q != s.requests[i].project
    requires t.locks == s.locks && t.holders == s.holders && t.requests == s.requests[i := r']
    ensures Holder(t, q) == Holder(s, q)
  {
    assert Placed(s, i);
  }

  lemma ActInv(st: Store, r: Request, c: Choice)
    requires ProjectInv(st, r.project, Some(r)) && HasLock(r) && !r.place.Unlocking?
    ensures var (st', r') := Act(st, r, c);
            ProjectInv(st', r.project, Some(r')) && Frame(st, st', r.project) && HasLock(r') && r'.project == r.project && OpOk(st', r')
  {
    hide Act, Frame, Bare, BotsMinded, HolderOk;
    ActKeeps(st, r, c);
    var (st', r') := Act(st, r, c);
    FrameOp(st, st', r.project, r);
  }

  lemma FrameInv(st: Store, st': Store, project: string, other: string, holder: Option<Request>, r': Request)
    requires Frame(st, st', project) && other != project && ProjectInv(st, other, holder) && ProjectInv(st', project, Some(r'))
    ensures ProjectInv(st', other, holder)
  {
    hide Frame, Bare, BotsMinded, HolderOk, OpOk;
    FrameKeeps(st, st', project, other, holder);
  }

  lemma StepKeepsInv(s: Office, e: Event)
    requires Inv(s) && Next(s, e).Some?
    ensures Inv(Next(s, e).value)
  {
    hide Inv;
    match e
    case Arrives(_, _, _) => ArriveKeeps(s, e);
    case Does(i, c) =>
      match s.requests[i].place
      case Arrived => LookUpKeeps(s, i, c);
      case Queued(_) => AcquireKeeps(s, i, c);
      case Unlocking(_) => ReleaseKeeps(s, i, c);
      case _ => ActStepKeeps(s, i, c);
  }

  lemma {:induction false} RunInv(s: Office, es: seq<Event>)
    requires Inv(s) && Run(s, es).Some?
    ensures Inv(Run(s, es).value)
    decreases |es|
  {
    hide Inv, Next;
    if es != [] {
      StepKeepsInv(s, es[0]);
      RunInv(Next(s, es[0]).value, es[1..]);
    }
  }

  // ---- main results ----

  /** In every run: one request at a time in a project's critical section; no
      two automations on one bot share a command; every bot an automation names
      is there, and of its project; every bot is named by an automation, or was
      left behind by a failed update, or is minded by the request in its
      project's critical section. */
  lemma Lifecycle(es: seq<Event>)
    requires Run(Initial(), es).Some?
    ensures var s := Run(Initial(), es).value;
            && (forall i, j | 0 <= i < |s.requests| && 0 <= j < |s.requests| && HasLock(s.requests[i]) && HasLock(s.requests[j])
                              && s.requests[i].project == s.requests[j].project :: i == j)
            && (forall i, j | i in s.store.autos && j in s.store.autos && s.store.autos[i].bot.Some?
                              && s.store.autos[i].bot == s.store.autos[j].bot
                              && s.store.autos[i].command == s.store.autos[j].command != "" :: i == j)
            && (forall id | id in s.store.autos && s.store.autos[id].bot.Some? ::
                  Owns(s.store, s.store.autos[id].project, s.store.autos[id].bot.value))
            && (forall bot | bot in s.store.bots ::
                  || InUse(s.store, s.store.bots[bot], bot) || bot in s.store.orphans
                  || (Holder(s, s.store.bots[bot]).Some? && Minds(Holder(s, s.store.bots[bot]).value, bot)))
  {
    InitialInv();
    RunInv(Initial(), es);
    var s := Run(Initial(), es).value;
    InvUnique(s);
    InvBots(s);
  }

  lemma InitialInv()
    ensures Inv(Initial())
  {
  }

  lemma InvUnique(s: Office)
    requires Inv(s)
    ensures forall i, j | 0 <= i < |s.requests| && 0 <= j < |s.requests| && HasLock(s.requests[i]) && HasLock(s.requests[j])
                          && s.requests[i].project == s.requests[j].project :: i == j
  {
    forall i, j | 0 <= i < |s.requests| && 0 <= j < |s.requests| && HasLock(s.requests[i]) && HasLock(s.requests[j])
                  && s.requests[i].project == s.requests[j].project
      ensures i == j
    {
      assert Placed(s, i) && Placed(s, j);
    }
  }

  lemma InvBots(s: Office)
    requires Inv(s)
    ensures forall id | id in s.store.autos && s.store.autos[id].bot.Some? ::
              Owns(s.store, s.store.autos[id].project, s.store.autos[id].bot.value)
    ensures forall i, j | i in s.store.autos && j in s.store.autos && s.store.autos[i].bot.Some?
                          && s.store.autos[i].bot == s.store.autos[j].bot
                          && s.store.autos[i].command == s.store.autos[j].command != "" :: i == j
    ensures forall bot | bot in s.store.bots ::
              || InUse(s.store, s.store.bots[bot], bot) || bot in s.store.orphans
              || (Holder(s, s.store.bots[bot]).Some? && Minds(Holder(s, s.store.bots[bot]).value, bot))
  {
    hide InUse, LocksInv, HolderOk, OpOk;
    forall id | id in s.store.autos && s.store.autos[id].bot.Some?
      ensures Owns(s.store, s.store.autos[id].project, s.store.autos[id].bot.value)
    {
      var p := s.store.autos[id].project;
      assert ProjectInv(s.store, p, Holder(s, p));
    }
    forall i, j | i in s.store.autos && j in s.store.autos && s.store.autos[i].bot.Some?
                  && s.store.autos[i].bot == s.store.autos[j].bot
                  && s.store.autos[i].command == s.store.autos[j].command != ""
      ensures i == j
    {
      var p := s.store.autos[i].project;
      assert ProjectInv(s.store, p, Holder(s, p));
    }
    forall bot | bot in s.store.bots
      ensures || InUse(s.store, s.store.bots[bot], bot) || bot in s.store.orphans
              || (Holder(s, s.store.bots[bot]).Some? && Minds(Holder(s, s.store.bots[bot]).value, bot))
    {
      var p := s.store.bots[bot];
      assert ProjectInv(s.store, p, Holder(s, p));
      assert Owns(s.store, p, bot);
    }
  }

  /** A failure that leaves a bot without automations: the store refuses an
      update, other than for a version conflict, after a new bot was made for
      it; or writing the bot it moves to fails, when no other automation names
      the bot it moves from. */
  predicate LeavesBot(st: Store, r: Request, c: Choice) {
    && r.op.Update? && c != Goes
    && ((r.place.Writing? && c != Conflicts && r.place.newBot.Some?)
        || (r.place.Committing? && r.wants.channel && r.wants.bot.Some? && OldBot(r).Some? && !InUse(st, r.project, OldBot(r).value)))
  }

  predicate Clean(s: Office, e: Event) {
    e.Arrives? || e.i >= |s.requests| || !LeavesBot(s.store, s.requests[e.i], e.c)
  }

  predicate CleanRun(s: Office, es: seq<Event>)
    decreases |es|
  {
    es == [] || Next(s, es[0]).None? || (Clean(s, es[0]) && CleanRun(Next(s, es[0]).value, es[1..]))
  }

  lemma CleanStep(s: Office, e: Event)
    requires Inv(s) && Next(s, e).Some? && Clean(s, e)
    ensures Next(s, e).value.store.orphans == s.store.orphans
  {
    hide LocksInv, Bare, BotsMinded;
    if e.Does? && HasLock(s.requests[e.i]) && !s.requests[e.i].place.Unlocking? {
      var p := s.requests[e.i].project;
      assert ProjectInv(s.store, p, Holder(s, p));
      HolderIs(s, e.i);
    }
  }

  lemma HolderIs(s: Office, i: nat)
    requires LocksInv(s) && i < |s.requests| && HasLock(s.requests[i])
    ensures Holder(s, s.requests[i].project) == Some(s.requests[i])
  {
    assert Placed(s, i);
  }

  lemma {:induction false} CleanOrphans(s: Office, es: seq<Event>)
    requires Inv(s) && Run(s, es).Some? && CleanRun(s, es)
    ensures Run(s, es).value.store.orphans == s.store.orphans
    decreases |es|
  {
    hide Inv, Next, Clean;
    if es != [] {
      CleanStep(s, es[0]);
      StepKeepsInv(s, es[0]);
      CleanOrphans(Next(s, es[0]).value, es[1..]);
    }
  }

  /** With such a failure a bot that no automation names is left, by a request
      that minds it no more. */
  lemma FailureLeavesBot(st: Store, r: Request, c: Choice) returns (bot: nat)
    requires ActReady(st, r) && LeavesBot(st, r, c)
    ensures var (st', r') := Act(st, r, c);
            && r'.place == Unlocking(false) && r'.project == r.project
            && bot in st'.orphans && Owns(st', r.project, bot) && !InUse(st', r.project, bot)
  {
    hide Bare, BotsMinded, Uses, Taken, Covered;
    var (st', r') := Act(st, r, c);
    UsesSame(st, st', r.project);
    bot := if r.place.Writing? then r.place.newBot.value else OldBot(r).value;
  }

  /** Every bot is named by an automation of its project, or minded by the
      request in its project's critical section. */
  ghost predicate AllMinded(s: Office) {
    forall bot | bot in s.store.bots :: Minded(s, bot)
  }

  predicate Minded(s: Office, bot: nat)
    requires bot in s.store.bots
  {
    var p := s.store.bots[bot];
    InUse(s.store, p, bot) || (Holder(s, p).Some? && Minds(Holder(s, p).value, bot))
  }

  /** No bot is left at any moment of the run. */
  ghost predicate NeverLeft(s: Office, es: seq<Event>)
    decreases |es|
  {
    AllMinded(s) && (es == [] || Next(s, es[0]).None? || NeverLeft(Next(s, es[0]).value, es[1..]))
  }

  lemma MindedNow(s: Office)
    requires Inv(s) && s.store.orphans == {}
    ensures AllMinded(s)
  {
    hide InUse, Holder, Minds;
    InvBots(s);
  }

  lemma UncleanLeaves(s: Office, e: Event)
    requires Inv(s) && Next(s, e).Some? && !Clean(s, e)
    ensures !AllMinded(Next(s, e).value)
  {
    hide Inv, Act, InUse, Uses, AllMinded, ActReady;
    var i, r := e.i, s.requests[e.i];
    assert HasLock(r) && (r.place.Writing? || r.place.Committing?);
    HolderReady(s, i);
    var bot := FailureLeavesBot(s.store, r, e.c);
    var (st', r') := Act(s.store, r, e.c);
    var t := Next(s, e).value;
    assert t == Put(s.(store := st'), i, r');
    StepKeepsInv(s, e);
    InvLocks(t);
    HolderIs(t, i);
    assert !Minded(t, bot);
    NotMinded(t, bot);
  }

  lemma InvLocks(s: Office)
    requires Inv(s)
    ensures LocksInv(s)
  {
  }

  lemma NotMinded(s: Office, bot: nat)
    requires bot in s.store.bots && !Minded(s, bot)
    ensures !AllMinded(s)
  {
  }

  lemma {:induction false} NeverLeftExactly(s: Office, es: seq<Event>)
    requires Inv(s) && s.store.orphans == {}
    ensures NeverLeft(s, es) <==> CleanRun(s, es)
    decreases |es|
  {
    hide Inv, Next, Clean, AllMinded;
    MindedNow(s);
    if es != [] && Next(s, es[0]).Some? {
      var t := Next(s, es[0]).value;
      StepKeepsInv(s, es[0]);
      if Clean(s, es[0]) {
        CleanStep(s, es[0]);
        NeverLeftExactly(t, es[1..]);
      } else {
        UncleanLeaves(s, es[0]);
        assert !NeverLeft(t, es[1..]);
      }
    }
  }

  /** Over every run: a bot that no automation names and no request minds is
      left at no moment exactly when no such failure happens. */
  lemma NoBotLeft(es: seq<Event>)
    ensures NeverLeft(Initial(), es) <==> CleanRun(Initial(), es)
    ensures Run(Initial(), es).Some? && CleanRun(Initial(), es) ==> AllMinded(Run(Initial(), es).value)
  {
    hide Inv, AllMinded;
    InitialInv();
    NeverLeftExactly(Initial(), es);
    if Run(Initial(), es).Some? && CleanRun(Initial(), es) {
      CleanOrphans(Initial(), es);
      RunInv(Initial(), es);
      MindedNow(Run(Initial(), es).value);
    }
  }

  // ---- a refused request ----

  function OwnAutos(st: Store, project: string): map<nat, Auto> {
    map id | id in st.autos && st.autos[id].project == project :: st.autos[id]
  }

  function OwnBots(st: Store, project: string): set<nat> {
    set bot | bot in st.bots && st.bots[bot] == project
  }

  /** Neither of two failures of an update: the store refuses it, other than
      for a version conflict, after a new bot was made for it; or it was saved,
      other than it was, and then its bot cannot be written. */
  predicate CleanAct(r: Request, c: Choice) {
    !(r.op.Update? && c != Goes
      && ((r.place.Writing? && c != Conflicts && r.place.newBot.Some?)
          || (r.place.Committing? && r.wants.channel && r.wants.bot.Some? && r.was != Some(r.place.auto))))
  }

  /** Where the project had these automations and bots when the request got the
      lock: what it has now, and so what a refusal has to undo. */
  predicate Since(st: Store, r: Request, autos: map<nat, Auto>, bots: set<nat>) {
    match r.place
    case Saving(newBot, _) => OwnAutos(st, r.project) == autos && BotsSince(st, r.project, newBot, bots)
    case Writing(newBot, _) => OwnAutos(st, r.project) == autos && BotsSince(st, r.project, newBot, bots)
    case Committing(id, a) =>
      r.wants.bot.Some? ==>
        && OwnBots(st, r.project) == bots
        && (if r.op.Create? then OwnAutos(st, r.project) - {id} == autos
            else id in autos && r.was == Some(autos[id]) && OwnAutos(st, r.project) == autos[id := a])
    case Unlocking(ok) => ok || (OwnAutos(st, r.project) == autos && OwnBots(st, r.project) == bots)
    case Releasing(_) => true
    case Removing(_) => true
    case Left(_) => true
    case _ => OwnAutos(st, r.project) == autos && OwnBots(st, r.project) == bots
  }

  predicate BotsSince(st: Store, project: string, newBot: Option<nat>, bots: set<nat>) {
    OwnBots(st, project) == (if newBot.Some? then bots + {newBot.value} else bots)
    && (newBot.Some? ==> newBot.value !in bots)
  }

  lemma LoadedSince(st: Store, r: Request, c: Choice, autos: map<nat, Auto>, bots: set<nat>)
    requires ActReady(st, r) && CleanAct(r, c) && Since(st, r, autos, bots) && (r.place.Locked? || r.place.Loaded?)
    ensures var (st', r') := Act(st, r, c); Since(st', r', autos, bots)
  {
    hide InUse, Taken, BotsMinded, CommandsUnique, BotsNamed;
    if r.place.Loaded? && !r.op.Delete? {
      var (st', r') := Bot(st, r, c);
      assert OwnAutos(st', r.project) == OwnAutos(st, r.project);
      if r'.place.Saving? && r'.place.newBot.Some? {
        assert OwnBots(st', r.project) == OwnBots(st, r.project) + {st.nextBot};
      }
    }
  }

  lemma Withdrawn(st: Store, r: Request, newBot: Option<nat>, bots: set<nat>)
    requires BotsSince(st, r.project, newBot, bots)
    ensures OwnAutos(Without(st, newBot), r.project) == OwnAutos(st, r.project)
    ensures OwnBots(Without(st, newBot), r.project) == bots
  {
    var st' := Without(st, newBot);
    assert OwnAutos(st', r.project) == OwnAutos(st, r.project);
    if newBot.Some? {
      assert OwnBots(st', r.project) == OwnBots(st, r.project) - {newBot.value};
    }
  }

  lemma SavingSince(st: Store, r: Request, c: Choice, autos: map<nat, Auto>, bots: set<nat>)
    requires ActReady(st, r) && Since(st, r, autos, bots) && r.place.Saving?
    ensures var (st', r') := Act(st, r, c); Since(st', r', autos, bots)
  {
    hide InUse, Taken, BotsMinded, Bare, HolderOk, BotsSince, OwnAutos, OwnBots, Refused, Without;
    Withdrawn(st, r, r.place.newBot, bots);
  }

  lemma WritingSince(st: Store, r: Request, c: Choice, autos: map<nat, Auto>, bots: set<nat>)
    requires ActReady(st, r) && CleanAct(r, c) && Since(st, r, autos, bots) && r.place.Writing?
    ensures var (st', r') := Act(st, r, c); Since(st', r', autos, bots)
  {
    hide InUse, Taken, BotsMinded, BotsNamed, CommandsUnique, Without;
    var newBot := r.place.newBot;
    Withdrawn(st, r, newBot, bots);
    if c == Goes && r.wants.bot.Some? {
      var st' := Act(st, r, c).0;
      assert newBot.None?;
      assert OwnBots(st', r.project) == OwnBots(st, r.project);
      if r.op.Create? {
        assert OwnAutos(st', r.project) - {st.nextAuto} == OwnAutos(st, r.project);
      } else {
        assert OwnAutos(st', r.project) == OwnAutos(st, r.project)[r.op.id := r.place.auto];
      }
    }
  }

  lemma CommittingSince(st: Store, r: Request, c: Choice, autos: map<nat, Auto>, bots: set<nat>)
    requires CleanAct(r, c) && Since(st, r, autos, bots) && r.place.Committing? && !r.op.Delete?
    ensures var (st', r') := Act(st, r, c); Since(st', r', autos, bots)
  {
    hide InUse;
    if c != Goes && r.wants.channel && r.wants.bot.Some? {
      var st' := Act(st, r, c).0;
      assert OwnBots(st', r.project) == OwnBots(st, r.project);
      if r.op.Create? {
        assert OwnAutos(st', r.project) == OwnAutos(st, r.project) - {r.place.id};
      } else {
        assert OwnAutos(st', r.project) == OwnAutos(st, r.project) == autos;
      }
    }
  }

  /** After either failure the project has other automations or bots. */
  lemma UncleanChanges(st: Store, r: Request, c: Choice, autos: map<nat, Auto>, bots: set<nat>)
    requires ActReady(st, r) && !CleanAct(r, c) && Since(st, r, autos, bots)
    ensures var (st', r') := Act(st, r, c);
            r'.place == Unlocking(false) && (OwnAutos(st', r.project) != autos || OwnBots(st', r.project) != bots)
  {
    hide InUse, Taken, BotsMinded, Bare, Covered;
    var st' := Act(st, r, c).0;
    assert OwnAutos(st', r.project) == OwnAutos(st, r.project) && OwnBots(st', r.project) == OwnBots(st, r.project);
    if r.place.Writing? {
      assert r.place.newBot.value in OwnBots(st, r.project);
    } else {
      assert OwnAutos(st, r.project)[r.place.id] == r.place.auto;
    }
  }

  lemma ActSince(st: Store, r: Request, c: Choice, autos: map<nat, Auto>, bots: set<nat>)
    requires ActReady(st, r) && CleanAct(r, c) && Since(st, r, autos, bots)
    ensures var (st', r') := Act(st, r, c); Since(st', r', autos, bots)
  {
    match r.place
    case Locked => LoadedSince(st, r, c, autos, bots);
    case Loaded => LoadedSince(st, r, c, autos, bots);
    case Saving(_, _) => SavingSince(st, r, c, autos, bots);
    case Writing(_, _) => WritingSince(st, r, c, autos, bots);
    case Committing(_, _) => CommittingSince(st, r, c, autos, bots);
    case _ =>
  }

  /** The project's automations and bots do not see the steps of another. */
  lemma FrameOwn(st: Store, st': Store, project: string, other: string)
    requires Frame(st, st', project) && other != project
    ensures OwnAutos(st', other) == OwnAutos(st, other) && OwnBots(st', other) == OwnBots(st, other)
  {
    forall bot ensures bot in OwnBots(st', other) <==> bot in OwnBots(st, other) {
      assert Owns(st, other, bot) <==> Owns(st', other, bot);
    }
    forall id ensures id in OwnAutos(st', other) <==> id in OwnAutos(st, other) {}
    forall id | id in OwnAutos(st', other) ensures OwnAutos(st', other)[id] == OwnAutos(st, other)[id] {}
  }

  lemma FrameSince(st: Store, st': Store, project: string, r: Request, autos: map<nat, Auto>, bots: set<nat>)
    requires Frame(st, st', project) && r.project != project && Since(st, r, autos, bots)
    ensures Since(st', r, autos, bots)
  {
    hide OwnAutos, OwnBots, Frame;
    FrameOwn(st, st', project, r.project);
  }

  /** What request i does in the run is clean. */
  predicate CleanFor(s: Office, es: seq<Event>, i: nat)
    decreases |es|
  {
    es == [] || Next(s, es[0]).None?
    || ((es[0].Does? && es[0].i == i && i < |s.requests| ==> CleanAct(s.requests[i], es[0].c))
        && CleanFor(Next(s, es[0]).value, es[1..], i))
  }

  /** Still in its critical section, or gone from it. */
  predicate Entered(s: Office, i: nat) {
    i < |s.requests| && (HasLock(s.requests[i]) || s.requests[i].place.Left?)
  }

  lemma StepSince(s: Office, e: Event, i: nat, autos: map<nat, Auto>, bots: set<nat>)
    requires Inv(s) && Next(s, e).Some? && Entered(s, i) && Since(s.store, s.requests[i], autos, bots)
    requires e.Does? && e.i == i ==> CleanAct(s.requests[i], e.c)
    ensures var t := Next(s, e).value; Entered(t, i) && t.requests[i].project == s.requests[i].project && Since(t.store, t.requests[i], autos, bots)
  {
    hide Inv, Act, CleanAct, Since, Frame;
    match e
    case Arrives(_, _, _) =>
    case Does(j, c) =>
      var r := s.requests[j];
      if HasLock(r) && !r.place.Unlocking? {
        HolderReady(s, j);
        ActKeeps(s.store, r, c);
        ActIs(s.store, r, c);
        if j == i {
          ActSince(s.store, r, c, autos, bots);
        } else if s.requests[i].place.Left? {
          LeftSince(s.store, Act(s.store, r, c).0, s.requests[i], autos, bots);
        } else {
          OneHolder(s, i, j);
          FrameSince(s.store, Act(s.store, r, c).0, r.project, s.requests[i], autos, bots);
        }
      } else if j == i {
        LeavingSince(s.store, r, autos, bots);
      }
  }

  lemma ActIs(st: Store, r: Request, c: Choice)
    requires ActReady(st, r) && var (st', r') := Act(st, r, c); ActOk(st, r, st', r')
    ensures var (st', r') := Act(st, r, c); Frame(st, st', r.project) && r'.project == r.project && HasLock(r')
  {
    hide Act, Frame, Bare, BotsMinded, HolderOk;
  }

  lemma LeftSince(st: Store, st': Store, r: Request, autos: map<nat, Auto>, bots: set<nat>)
    requires r.place.Left?
    ensures Since(st', r, autos, bots)
  {
  }

  lemma LeavingSince(st: Store, r: Request, autos: map<nat, Auto>, bots: set<nat>)
    ensures forall ok :: Since(st, r.(place := Left(ok)), autos, bots)
  {
  }

  lemma HolderReady(s: Office, i: nat)
    requires Inv(s) && i < |s.requests| && HasLock(s.requests[i]) && !s.requests[i].place.Unlocking?
    ensures ActReady(s.store, s.requests[i])
  {
    hide LocksInv, Bare, BotsMinded, HolderOk;
    HolderIs(s, i);
    var p := s.requests[i].project;
    assert ProjectInv(s.store, p, Holder(s, p));
  }

  lemma OneHolder(s: Office, i: nat, j: nat)
    requires Inv(s) && i < |s.requests| && j < |s.requests| && i != j && HasLock(s.requests[i]) && HasLock(s.requests[j])
    ensures s.requests[i].project != s.requests[j].project
  {
    hide ProjectInv;
    InvUnique(s);
  }

  lemma IsEntered(s: Office, i: nat)
    requires Entered(s, i)
    ensures i < |s.requests|
  {
  }

  lemma StepOwn(s: Office, e: Event, i: nat)
    requires Inv(s) && Next(s, e).Some? && i < |s.requests| && s.requests[i].place.Unlocking? && !(e.Does? && e.i == i)
    ensures var t, p := Next(s, e).value, s.requests[i].project;
            && |t.requests| >= |s.requests| && t.requests[i] == s.requests[i]
            && OwnAutos(t.store, p) == OwnAutos(s.store, p) && OwnBots(t.store, p) == OwnBots(s.store, p)
  {
    hide Inv, Act, Frame, OwnAutos, OwnBots;
    match e
    case Arrives(_, _, _) =>
    case Does(j, c) =>
      var r := s.requests[j];
      if HasLock(r) && !r.place.Unlocking? {
        HolderReady(s, j);
        ActKeeps(s.store, r, c);
        ActIs(s.store, r, c);
        OneHolder(s, i, j);
        FrameOwn(s.store, Act(s.store, r, c).0, r.project, s.requests[i].project);
      }
  }

  lemma {:induction false} LeftStays(s: Office, es: seq<Event>, i: nat)
    requires i < |s.requests| && s.requests[i].place.Left? && Run(s, es).Some?
    ensures i < |Run(s, es).value.requests| && Run(s, es).value.requests[i].place.Left?
    decreases |es|
  {
    hide Act;
    if es != [] {
      LeftStays(Next(s, es[0]).value, es[1..], i);
    }
  }

  /** What the project has when a request is refused it has until the lock is let go. */
  lemma {:induction false} RefusedStays(s: Office, es: seq<Event>, i: nat)
    requires Inv(s) && Run(s, es).Some? && i < |s.requests| && s.requests[i].place == Unlocking(false)
    requires i < |Run(s, es).value.requests| && Run(s, es).value.requests[i].place == Unlocking(false)
    ensures var t, p := Run(s, es).value, s.requests[i].project;
            OwnAutos(t.store, p) == OwnAutos(s.store, p) && OwnBots(t.store, p) == OwnBots(s.store, p)
    decreases |es|
  {
    hide Inv, Act, OwnAutos, OwnBots;
    if es != [] {
      var t := Next(s, es[0]).value;
      if es[0].Does? && es[0].i == i {
        LeftStays(t, es[1..], i);
        assert false;
      } else {
        StepOwn(s, es[0], i);
        StepKeepsInv(s, es[0]);
        RefusedStays(t, es[1..], i);
      }
    }
  }

  lemma UncleanStep(s: Office, e: Event, i: nat, autos: map<nat, Auto>, bots: set<nat>)
    requires Inv(s) && Next(s, e).Some? && Entered(s, i) && Since(s.store, s.requests[i], autos, bots)
    requires e.Does? && e.i == i && !CleanAct(s.requests[i], e.c)
    ensures var t, p := Next(s, e).value, s.requests[i].project;
            && i < |t.requests| && t.requests[i].place == Unlocking(false) && t.requests[i].project == p
            && (OwnAutos(t.store, p) != autos || OwnBots(t.store, p) != bots)
  {
    hide Inv, Act, Frame, OwnAutos, OwnBots, Since, ActReady;
    var r := s.requests[i];
    assert HasLock(r) && !r.place.Unlocking?;
    HolderReady(s, i);
    ActKeeps(s.store, r, e.c);
    ActIs(s.store, r, e.c);
    UncleanChanges(s.store, r, e.c, autos, bots);
  }

  lemma {:induction false} RefusedExactly(s: Office, es: seq<Event>, i: nat, autos: map<nat, Auto>, bots: set<nat>)
    requires Inv(s) && Run(s, es).Some? && Entered(s, i) && Since(s.store, s.requests[i], autos, bots)
    requires i < |Run(s, es).value.requests| && Run(s, es).value.requests[i].place == Unlocking(false)
    ensures var t, p := Run(s, es).value, s.requests[i].project;
            OwnAutos(t.store, p) == autos && OwnBots(t.store, p) == bots <==> CleanFor(s, es, i)
    decreases |es|
  {
    hide Inv, Next, CleanAct, Entered, OwnAutos, OwnBots;
    if es != [] {
      var t := Next(s, es[0]).value;
      IsEntered(s, i);
      StepKeepsInv(s, es[0]);
      if es[0].Does? && es[0].i == i && !CleanAct(s.requests[i], es[0].c) {
        UncleanStep(s, es[0], i, autos, bots);
        RefusedStays(t, es[1..], i);
      } else {
        StepSince(s, es[0], i, autos, bots);
        RefusedExactly(t, es[1..], i, autos, bots);
      }
    }
  }

  /** Whatever other requests do meanwhile, a request that is refused leaves its
      project's automations and bots exactly as they were when it got the lock,
      exactly when neither failure happened to it. */
  lemma RefusedChangesNothing(before: seq<Event>, es: seq<Event>, i: nat)
    requires Run(Initial(), before).Some?
    requires var s := Run(Initial(), before).value;
             && i < |s.requests| && s.requests[i].place.Locked? && Run(s, es).Some?
             && i < |Run(s, es).value.requests| && Run(s, es).value.requests[i].place == Unlocking(false)
    ensures var s := Run(Initial(), before).value;
            var t, p := Run(s, es).value, s.requests[i].project;
            OwnAutos(t.store, p) == OwnAutos(s.store, p) && OwnBots(t.store, p) == OwnBots(s.store, p) <==> CleanFor(s, es, i)
  {
    hide Run, CleanFor, OwnAutos, OwnBots;
    var s := Run(Initial(), before).value;
    var p := s.requests[i].project;
    InitialInv();
    RunInv(Initial(), before);
    RefusedExactly(s, es, i, OwnAutos(s.store, p), OwnBots(s.store, p));
  }

  // ---- an accepted request ----

  /** An automation as it was asked for; its bot is the one asked for, or one
      that was not there. */
  predicate Asked(a: Auto, project: string, wants: Wants, bots: set<nat>) {
    && a.project == project && a.rest == wants.rest
    && a.command == (if wants.channel then wants.command else "")
    && (if !wants.channel then a.bot == None
        else if wants.bot.Some? then a.bot == wants.bot && wants.bot.value in bots
        else a.bot.Some? && a.bot.value !in bots)
  }

  /** What the project's automations become when the request is carried out. */
  ghost predicate Done(r: Request, autos: map<nat, Auto>, bots: set<nat>, autos': map<nat, Auto>) {
    match r.op
    case Create => exists id: nat, a :: id !in autos && Asked(a, r.project, r.wants, bots) && autos' == autos[id := a]
    case Update(id) => id in autos && exists a :: Asked(a, r.project, r.wants, bots) && autos' == autos[id := a]
    case Delete(id) => id in autos && autos' == autos - {id}
  }

  /** How far the request is on its way, from these automations and bots. */
  ghost predicate Toward(st: Store, r: Request, autos: map<nat, Auto>, bots: set<nat>) {
    match r.place
    case Saving(newBot, bot) =>
      && OwnAutos(st, r.project) == autos
      && (newBot.Some? ==> newBot.value !in bots) && (newBot.None? ==> OwnBots(st, r.project) == bots)
      && (r.wants.channel && r.wants.bot.None? ==> newBot.Some?)
    case Writing(_, a) => OwnAutos(st, r.project) == autos && Asked(a, r.project, r.wants, bots)
    case Committing(_, _) => Done(r, autos, bots, OwnAutos(st, r.project))
    case Releasing(_) => Done(r, autos, bots, OwnAutos(st, r.project))
    case Removing(_) => Done(r, autos, bots, OwnAutos(st, r.project))
    case Unlocking(ok) => ok ==> Done(r, autos, bots, OwnAutos(st, r.project))
    case Left(_) => true
    case _ => OwnAutos(st, r.project) == autos && OwnBots(st, r.project) == bots
  }

  lemma LoadedToward(st: Store, r: Request, c: Choice, autos: map<nat, Auto>, bots: set<nat>)
    requires ActReady(st, r) && Toward(st, r, autos, bots) && (r.place.Locked? || r.place.Loaded?)
    ensures var (st', r') := Act(st, r, c); Toward(st', r', autos, bots)
  {
    hide InUse, Taken, BotsMinded, CommandsUnique, BotsNamed;
    var (st', r') := Act(st, r, c);
    if r.place.Loaded? {
      if r.op.Delete? {
        if c == Goes { assert OwnAutos(st', r.project) == OwnAutos(st, r.project) - {r.op.id}; }
      } else {
        assert OwnAutos(st', r.project) == OwnAutos(st, r.project);
        assert st.nextBot !in OwnBots(st, r.project);
      }
    }
  }

  lemma SavingToward(st: Store, r: Request, c: Choice, autos: map<nat, Auto>, bots: set<nat>)
    requires ActReady(st, r) && Toward(st, r, autos, bots) && r.place.Saving?
    ensures var (st', r') := Act(st, r, c); Toward(st', r', autos, bots)
  {
    hide InUse, Taken, BotsMinded, Bare;
  }

  lemma WritingToward(st: Store, r: Request, c: Choice, autos: map<nat, Auto>, bots: set<nat>)
    requires ActReady(st, r) && Toward(st, r, autos, bots) && r.place.Writing?
    ensures var (st', r') := Act(st, r, c); Toward(st', r', autos, bots)
  {
    hide InUse, Taken, BotsMinded, BotsNamed, CommandsUnique, Asked;
    if c == Goes {
      var (st', r') := Act(st, r, c);
      var id, a := if r.op.Create? then st.nextAuto else r.op.id, r.place.auto;
      assert OwnAutos(st', r.project) == OwnAutos(st, r.project)[id := a];
      assert r.op.Create? ==> id !in autos;
    }
  }

  lemma StoredToward(st: Store, r: Request, c: Choice, autos: map<nat, Auto>, bots: set<nat>)
    requires ActReady(st, r) && Toward(st, r, autos, bots) && (r.place.Committing? || r.place.Releasing? || r.place.Removing?)
    ensures var (st', r') := Act(st, r, c); Toward(st', r', autos, bots)
  {
    hide InUse, BotsMinded, Bare, HolderOk, Done;
    var (st', r') := Act(st, r, c);
    assert r'.op == r.op && r'.wants == r.wants && r'.project == r.project;
    if r'.place != Unlocking(false) {
      assert OwnAutos(st', r.project) == OwnAutos(st, r.project);
      DoneSame(r, r', autos, bots, OwnAutos(st, r.project));
    }
  }

  lemma DoneSame(r: Request, r': Request, autos: map<nat, Auto>, bots: set<nat>, autos': map<nat, Auto>)
    requires r'.op == r.op && r'.wants == r.wants && r'.project == r.project && Done(r, autos, bots, autos')
    ensures Done(r', autos, bots, autos')
  {
  }

  lemma ActToward(st: Store, r: Request, c: Choice, autos: map<nat, Auto>, bots: set<nat>)
    requires ActReady(st, r) && Toward(st, r, autos, bots)
    ensures var (st', r') := Act(st, r, c); Toward(st', r', autos, bots)
  {
    match r.place
    case Locked => LoadedToward(st, r, c, autos, bots);
    case Loaded => LoadedToward(st, r, c, autos, bots);
    case Saving(_, _) => SavingToward(st, r, c, autos, bots);
    case Writing(_, _) => WritingToward(st, r, c, autos, bots);
    case _ => StoredToward(st, r, c, autos, bots);
  }

  lemma FrameToward(st: Store, st': Store, project: string, r: Request, autos: map<nat, Auto>, bots: set<nat>)
    requires Frame(st, st', project) && r.project != project && Toward(st, r, autos, bots)
    ensures Toward(st', r, autos, bots)
  {
    hide OwnAutos, OwnBots, Frame;
    FrameOwn(st, st', project, r.project);
  }

  lemma LeavingToward(st: Store, r: Request, autos: map<nat, Auto>, bots: set<nat>)
    ensures forall ok :: Toward(st, r.(place := Left(ok)), autos, bots)
    ensures r.place.Left? ==> Toward(st, r, autos, bots)
  {
  }

  lemma StepToward(s: Office, e: Event, i: nat, autos: map<nat, Auto>, bots: set<nat>)
    requires Inv(s) && Next(s, e).Some? && Entered(s, i) && Toward(s.store, s.requests[i], autos, bots)
    ensures var t := Next(s, e).value;
            && Entered(t, i) && t.requests[i].project == s.requests[i].project
            && t.requests[i].op == s.requests[i].op && t.requests[i].wants == s.requests[i].wants
            && Toward(t.store, t.requests[i], autos, bots)
  {
    hide Inv, Act, Toward, Frame;
    match e
    case Arrives(_, _, _) =>
    case Does(j, c) =>
      var r := s.requests[j];
      if HasLock(r) && !r.place.Unlocking? {
        HolderReady(s, j);
        ActKeeps(s.store, r, c);
        ActIs(s.store, r, c);
        SameWants(s.store, r, c);
        if j == i {
          ActToward(s.store, r, c, autos, bots);
        } else if s.requests[i].place.Left? {
          LeavingToward(Act(s.store, r, c).0, s.requests[i], autos, bots);
        } else {
          OneHolder(s, i, j);
          FrameToward(s.store, Act(s.store, r, c).0, r.project, s.requests[i], autos, bots);
        }
      } else if j == i {
        LeavingToward(s.store, r, autos, bots);
      }
  }

  lemma SameWants(st: Store, r: Request, c: Choice)
    requires HasLock(r) && !r.place.Unlocking?
    ensures Act(st, r, c).1.wants == r.wants && Act(st, r, c).1.op == r.op
  {
  }

  lemma {:induction false} RunToward(s: Office, es: seq<Event>, i: nat, autos: map<nat, Auto>, bots: set<nat>)
    requires Inv(s) && Run(s, es).Some? && Entered(s, i) && Toward(s.store, s.requests[i], autos, bots)
    ensures var t := Run(s, es).value;
            && Entered(t, i) && t.requests[i].project == s.requests[i].project
            && t.requests[i].op == s.requests[i].op && t.requests[i].wants == s.requests[i].wants
            && Toward(t.store, t.requests[i], autos, bots)
    decreases |es|
  {
    hide Inv, Next, Toward, Entered;
    IsEntered(s, i);
    if es != [] {
      IsEntered(s, i);
      StepToward(s, es[0], i, autos, bots);
      IsEntered(Next(s, es[0]).value, i);
      StepKeepsInv(s, es[0]);
      RunToward(Next(s, es[0]).value, es[1..], i, autos, bots);
      IsEntered(Run(s, es).value, i);
    }
  }

  /** Whatever other requests do meanwhile, a request that is answered well has
      done what it asked between getting its lock and letting it go: a delete has
      taken out its automation, an update has replaced it and a create has added
      one, with the settings, command and bot asked for; no other automation of
      the project is touched. */
  lemma AcceptedDoes(before: seq<Event>, es: seq<Event>, i: nat)
    requires Run(Initial(), before).Some?
    requires var s := Run(Initial(), before).value;
             && i < |s.requests| && s.requests[i].place.Locked? && Run(s, es).Some?
             && i < |Run(s, es).value.requests| && Run(s, es).value.requests[i].place == Unlocking(true)
    ensures var s := Run(Initial(), before).value;
            var t, r := Run(s, es).value, s.requests[i];
            var autos, bots := OwnAutos(s.store, r.project), OwnBots(s.store, r.project);
            match r.op
            case Create => exists id: nat, a :: id !in autos && Asked(a, r.project, r.wants, bots) && OwnAutos(t.store, r.project) == autos[id := a]
            case Update(id) => id in autos && exists a :: Asked(a, r.project, r.wants, bots) && OwnAutos(t.store, r.project) == autos[id := a]
            case Delete(id) => id in autos && OwnAutos(t.store, r.project) == autos - {id}
  {
    hide Run, OwnAutos, OwnBots, Asked;
    var s := Run(Initial(), before).value;
    var r := s.requests[i];
    InitialInv();
    RunInv(Initial(), before);
    RunToward(s, es, i, OwnAutos(s.store, r.project), OwnBots(s.store, r.project));
    var t := Run(s, es).value;
    DoneSame(t.requests[i], r, OwnAutos(s.store, r.project), OwnBots(s.store, r.project), OwnAutos(t.store, r.project));
  }

  // ---- which requests are accepted ----

  /** What a request needs, when every write goes well: its automation, and for
      an existing bot that it is the project's and that no other automation has
      the command on it. */
  ghost predicate Acceptable(st: Store, r: Request) {
    && (!r.op.Create? ==> r.op.id in st.autos)
    && (!r.op.Delete? && r.wants.channel && r.wants.bot.Some? ==>
          && r.wants.bot.value in st.bots && st.bots[r.wants.bot.value] == r.project
          && (r.wants.command != "" ==>
                forall id | id in st.autos && st.autos[id].project == r.project && st.autos[id].bot == r.wants.bot
                            && st.autos[id].command == r.wants.command :: r.op == Update(id)))
  }

  /** Request i alone, every step going well, ends there. */
  ghost predicate EndsAt(s: Office, i: nat, n: nat, place: Place) {
    var t := Run(s, Steps(i, n));
    t.Some? && i < |t.value.requests| && t.value.requests[i].place == place
  }

  lemma GoStep(s: Office, i: nat) returns (t: Office)
    requires Inv(s) && i < |s.requests| && HasLock(s.requests[i]) && !s.requests[i].place.Unlocking?
    ensures var (st', r') := Act(s.store, s.requests[i], Goes);
            && Next(s, Does(i, Goes)) == Some(t) && t.store == st' && i < |t.requests| && t.requests[i] == r'
    ensures Inv(t) && ActReady(s.store, s.requests[i]) && HasLock(t.requests[i])
    ensures forall n: nat, place | EndsAt(t, i, n, place) :: EndsAt(s, i, n + 1, place)
  {
    hide Inv, Act, Run;
    var (st', r') := Act(s.store, s.requests[i], Goes);
    t := Put(s.(store := st'), i, r');
    assert Next(s, Does(i, Goes)) == Some(t);
    HolderReady(s, i);
    ActKeeps(s.store, s.requests[i], Goes);
    ActIs(s.store, s.requests[i], Goes);
    StepKeepsInv(s, Does(i, Goes));
    forall n: nat, place | EndsAt(t, i, n, place) ensures EndsAt(s, i, n + 1, place) {
      RunStep(s, Does(i, Goes), t, Steps(i, n));
    }
  }

  lemma AtEnd(s: Office, i: nat)
    requires i < |s.requests|
    ensures EndsAt(s, i, 0, s.requests[i].place)
  {
    RunNone(s);
  }

  lemma EndReleasing(s: Office, i: nat) returns (n: nat)
    requires Inv(s) && i < |s.requests|
    requires s.requests[i].place.Releasing? || s.requests[i].place.Removing? || s.requests[i].place == Unlocking(true)
    ensures EndsAt(s, i, n, Unlocking(true))
    decreases if s.requests[i].place.Releasing? then 2 else if s.requests[i].place.Removing? then 1 else 0
  {
    hide Inv, InUse, EndsAt, ActReady, Run;
    if s.requests[i].place.Unlocking? {
      AtEnd(s, i);
      n := 0;
    } else {
      var t := GoStep(s, i);
      n := EndReleasing(t, i);
      n := n + 1;
    }
  }

  lemma EndCommitting(s: Office, i: nat) returns (n: nat)
    requires Inv(s) && i < |s.requests| && s.requests[i].place.Committing?
    ensures EndsAt(s, i, n, Unlocking(true))
  {
    hide Inv, InUse, EndsAt, ActReady, Run;
    var t := GoStep(s, i);
    n := EndReleasing(t, i);
    n := n + 1;
  }

  lemma EndWriting(s: Office, i: nat) returns (n: nat)
    requires Inv(s) && i < |s.requests| && s.requests[i].place.Writing?
    ensures EndsAt(s, i, n, Unlocking(true))
  {
    hide Inv, InUse, EndsAt, Run, Bare, BotsMinded;
    var t := GoStep(s, i);
    n := EndCommitting(t, i);
    n := n + 1;
  }

  lemma EndSaving(s: Office, i: nat) returns (n: nat)
    requires Inv(s) && i < |s.requests| && s.requests[i].place.Saving?
    ensures EndsAt(s, i, n, Unlocking(!Refused(s.store, s.requests[i], s.requests[i].place.bot)))
  {
    hide Inv, InUse, EndsAt, Run, Refused, ActReady;
    var t := GoStep(s, i);
    if Refused(s.store, s.requests[i], s.requests[i].place.bot) {
      AtEnd(t, i);
      n := 1;
    } else {
      n := EndWriting(t, i);
      n := n + 1;
    }
  }

  lemma RefusedMeans(st: Store, r: Request, newBot: Option<nat>)
    requires r.wants.bot.Some? && r.wants.channel && !r.op.Delete? && (!r.op.Create? ==> r.op.id in st.autos)
    ensures Refused(st, r, r.wants.bot) <==> !Acceptable(st, r)
  {
    var bot := r.wants.bot.value;
    if Taken(st, r.project, r.op, bot, r.wants.command) {
      var id :| id in st.autos && Uses(st, id, r.project, bot) && st.autos[id].command == r.wants.command && r.op != Update(id);
    }
    forall id | id in st.autos && st.autos[id].project == r.project && st.autos[id].bot == r.wants.bot
                && st.autos[id].command == r.wants.command && r.op != Update(id)
      ensures Taken(st, r.project, r.op, bot, r.wants.command)
    {
      assert Uses(st, id, r.project, bot);
    }
  }

  lemma NewFree(st: Store, r: Request, bot: nat)
    requires Owns(st, r.project, bot) && !InUse(st, r.project, bot)
    ensures !Refused(st, r, Some(bot))
  {
  }

  lemma EndLoading(s: Office, i: nat) returns (n: nat)
    requires Inv(s) && i < |s.requests| && s.requests[i].place.Loaded?
    ensures EndsAt(s, i, n, Unlocking(Acceptable(s.store, s.requests[i])))
  {
    hide Inv, InUse, EndsAt, Run, Refused, Acceptable, Taken, Bare, BotsMinded;
    var r := s.requests[i];
    var t := GoStep(s, i);
    if r.op.Delete? {
      n := EndReleasing(t, i);
      AcceptsDelete(s.store, r);
    } else {
      n := EndSaving(t, i);
      if !r.wants.channel {
        NoBotRefused(t.store, t.requests[i]);
        AcceptsDelete(s.store, r);
      } else if r.wants.bot.Some? {
        RefusedMeans(s.store, r, None);
        RefusedAlike(s.store, r, t.requests[i], r.wants.bot);
      } else {
        HolderIsOk(t, i);
        NewFree(t.store, t.requests[i], t.requests[i].place.newBot.value);
        AcceptsDelete(s.store, r);
      }
    }
    n := n + 1;
  }

  lemma HolderIsOk(s: Office, i: nat)
    requires Inv(s) && i < |s.requests| && HasLock(s.requests[i]) && !s.requests[i].place.Unlocking?
    ensures HolderOk(s.store, s.requests[i])
  {
    hide Inv, HolderOk, Bare, BotsMinded;
    HolderReady(s, i);
  }

  lemma AcceptsDelete(st: Store, r: Request)
    requires !r.op.Create? ==> r.op.id in st.autos
    requires r.op.Delete? || !r.wants.channel || r.wants.bot.None?
    ensures Acceptable(st, r)
  {
  }

  lemma NoBotRefused(st: Store, r: Request)
    ensures !Refused(st, r, None)
  {
  }

  lemma RefusedAlike(st: Store, r: Request, r': Request, bot: Option<nat>)
    requires r'.project == r.project && r'.wants == r.wants && r'.op == r.op
    ensures Refused(st, r, bot) == Refused(st, r', bot)
  {
  }

  /** With every write going well a request is answered well exactly when it is
      acceptable as the office is when it gets its lock. */
  lemma AcceptsExactly(before: seq<Event>, i: nat) returns (n: nat)
    requires Run(Initial(), before).Some?
    requires var s := Run(Initial(), before).value; i < |s.requests| && s.requests[i].place.Locked?
    ensures var s := Run(Initial(), before).value; EndsAt(s, i, n, Unlocking(Acceptable(s.store, s.requests[i])))
  {
    hide Inv, EndsAt, Run, Acceptable, ActReady;
    InitialInv();
    RunInv(Initial(), before);
    var s := Run(Initial(), before).value;
    var r := s.requests[i];
    var t := GoStep(s, i);
    if !r.op.Create? && r.op.id !in s.store.autos {
      AtEnd(t, i);
      NotAcceptable(s.store, r);
      n := 1;
    } else {
      n := EndLoading(t, i);
      AcceptableAlike(s.store, r, t.requests[i]);
      n := n + 1;
    }
  }

  lemma NotAcceptable(st: Store, r: Request)
    requires !r.op.Create? && r.op.id !in st.autos
    ensures !Acceptable(st, r)
  {
  }

  lemma AcceptableAlike(st: Store, r: Request, r': Request)
    requires r'.project == r.project && r'.wants == r.wants && r'.op == r.op
    ensures Acceptable(st, r) == Acceptable(st, r')
  {
  }

  // ---- the input where a refused update changes something ----

  const FIRST := Wants(true, None, "a", "")
  const SECOND := Wants(true, Some(0), "b", "")

  /** One project, its first request and its first automation, once there. */
  function Office1(p: string, autos: map<nat, Auto>, bots: map<nat, string>, holders: map<nat, nat>, place: Place): Office {
    Office(Store(autos, bots, {}, |autos|, |bots|), map[p := 0], 1, holders, [Request(Create, p, FIRST, None, place)])
  }

  /** The second request, an update of that automation. */
  function Office2(p: string, st: Store, holders: map<nat, nat>, wants: Wants, was: Option<Auto>, place: Place): Office {
    Office(st, map[p := 0], 1, holders,
           [Request(Create, p, FIRST, None, Left(true)), Request(Update(0), p, wants, was, place)])
  }

  function Store2(p: string, command: string): Store {
    Store(map[0 := Auto(p, Some(0), command, "")], map[0 := p], {}, 1, 1)
  }

  function Steps(i: nat, n: nat): seq<Event> {
    if n == 0 then [] else [Does(i, Goes)] + Steps(i, n - 1)
  }

  lemma RunStep(s: Office, e: Event, t: Office, es: seq<Event>)
    requires Next(s, e).Some?
    requires var n := Next(s, e).value;
             && n.store.autos == t.store.autos && n.store.bots == t.store.bots
             && n.store.orphans == t.store.orphans && n.store.nextAuto == t.store.nextAuto && n.store.nextBot == t.store.nextBot
             && n.locks == t.locks && n.mutexes == t.mutexes && n.holders == t.holders && n.requests == t.requests
    ensures Run(s, [e] + es) == Run(t, es)
  {
    assert ([e] + es)[1..] == es;
  }

  lemma {:induction false} RunJoin(s: Office, a: seq<Event>, b: seq<Event>)
    requires Run(s, a).Some?
    ensures Run(s, a + b) == Run(Run(s, a).value, b)
    decreases |a|
  {
    hide Next;
    if a == [] {
      assert a + b == b;
    } else {
      assert (a + b)[1..] == a[1..] + b;
      RunJoin(Next(s, a[0]).value, a[1..], b);
    }
  }

  lemma CreateQueues(p: string)
    ensures Run(Initial(), [Arrives(Create, p, FIRST)] + Steps(0, 2)) == Some(Office1(p, map[], map[], map[0 := 0], Locked))
  {
    var s0 := Initial().(requests := [Request(Create, p, FIRST, None, Arrived)]);
    var s1 := Office1(p, map[], map[], map[], Queued(0));
    var s2 := Office1(p, map[], map[], map[0 := 0], Locked);
    RunStep(Initial(), Arrives(Create, p, FIRST), s0, Steps(0, 2));
    RunStep(s0, Does(0, Goes), s1, Steps(0, 1));
    RunStep(s1, Does(0, Goes), s2, Steps(0, 0));
  }

  lemma CreateWrites(p: string)
    ensures Run(Office1(p, map[], map[], map[0 := 0], Locked), Steps(0, 6))
         == Run(Office1(p, map[], map[0 := p], map[0 := 0], Writing(Some(0), Auto(p, Some(0), "a", ""))), Steps(0, 3))
  {
    hide Run;
    var s2 := Office1(p, map[], map[], map[0 := 0], Locked);
    var s3 := Office1(p, map[], map[], map[0 := 0], Loaded);
    var s4 := Office1(p, map[], map[0 := p], map[0 := 0], Saving(Some(0), Some(0)));
    var s5 := Office1(p, map[], map[0 := p], map[0 := 0], Writing(Some(0), Auto(p, Some(0), "a", "")));
    RunStep(s2, Does(0, Goes), s3, Steps(0, 5));
    RunStep(s3, Does(0, Goes), s4, Steps(0, 4));
    RunStep(s4, Does(0, Goes), s5, Steps(0, 3));
  }

  lemma CreateSaves(p: string)
    ensures var a := Auto(p, Some(0), "a", "");
            (Run(Office1(p, map[], map[0 := p], map[0 := 0], Writing(Some(0), a)), Steps(0, 3))
             == Some(Office1(p, map[0 := a], map[0 := p], map[], Left(true))))
  {
    hide Run;
    var a := Auto(p, Some(0), "a", "");
    var s5 := Office1(p, map[], map[0 := p], map[0 := 0], Writing(Some(0), a));
    var s6 := Office1(p, map[0 := a], map[0 := p], map[0 := 0], Committing(0, a));
    var s7 := Office1(p, map[0 := a], map[0 := p], map[0 := 0], Unlocking(true));
    var s8 := Office1(p, map[0 := a], map[0 := p], map[], Left(true));
    RunStep(s5, Does(0, Goes), s6, Steps(0, 2));
    RunStep(s6, Does(0, Goes), s7, Steps(0, 1));
    RunStep(s7, Does(0, Goes), s8, Steps(0, 0));
    RunNone(s8);
  }

  lemma RunNone(s: Office)
    ensures Run(s, []) == Some(s)
  {
  }

  lemma UpdateQueues(p: string, wants: Wants)
    ensures Run(Office1(p, map[0 := Auto(p, Some(0), "a", "")], map[0 := p], map[], Left(true)), [Arrives(Update(0), p, wants)] + Steps(1, 2))
         == Some(Office2(p, Store2(p, "a"), map[0 := 1], wants, None, Locked))
  {
    hide Run;
    var s := Office1(p, map[0 := Auto(p, Some(0), "a", "")], map[0 := p], map[], Left(true));
    var s0 := Office2(p, Store2(p, "a"), map[], wants, None, Arrived);
    var s1 := Office2(p, Store2(p, "a"), map[], wants, None, Queued(0));
    var s2 := Office2(p, Store2(p, "a"), map[0 := 1], wants, None, Locked);
    RunStep(s, Arrives(Update(0), p, wants), s0, Steps(1, 2));
    RunStep(s0, Does(1, Goes), s1, Steps(1, 1));
    RunStep(s1, Does(1, Goes), s2, Steps(1, 0));
    RunNone(s2);
  }

  function Created(p: string, wants: Wants): seq<Event> {
    ([Arrives(Create, p, FIRST)] + Steps(0, 2)) + (Steps(0, 6) + ([Arrives(Update(0), p, wants)] + Steps(1, 2)))
  }

  /** The automation made, the update has the lock. */
  lemma UpdateLocked(p: string, wants: Wants)
    ensures Run(Initial(), Created(p, wants)) == Some(Office2(p, Store2(p, "a"), map[0 := 1], wants, None, Locked))
  {
    hide Next, Run, Steps;
    CreateQueues(p);
    CreateWrites(p);
    CreateSaves(p);
    UpdateQueues(p, wants);
    RunJoin(Office1(p, map[], map[], map[0 := 0], Locked), Steps(0, 6), [Arrives(Update(0), p, wants)] + Steps(1, 2));
    RunJoin(Initial(), [Arrives(Create, p, FIRST)] + Steps(0, 2), Steps(0, 6) + ([Arrives(Update(0), p, wants)] + Steps(1, 2)));
  }

  lemma UpdateSaves(p: string)
    ensures Run(Office2(p, Store2(p, "a"), map[0 := 1], SECOND, None, Locked), Steps(1, 4))
         == Some(Office2(p, Store2(p, "b"), map[0 := 1], SECOND, Some(Auto(p, Some(0), "a", "")), Committing(0, Auto(p, Some(0), "b", ""))))
  {
    hide Run;
    var was := Some(Auto(p, Some(0), "a", ""));
    var b := Auto(p, Some(0), "b", "");
    var s2 := Office2(p, Store2(p, "a"), map[0 := 1], SECOND, None, Locked);
    var s3 := Office2(p, Store2(p, "a"), map[0 := 1], SECOND, was, Loaded);
    var s4 := Office2(p, Store2(p, "a"), map[0 := 1], SECOND, was, Saving(None, Some(0)));
    var s5 := Office2(p, Store2(p, "a"), map[0 := 1], SECOND, was, Writing(None, b));
    var s6 := Office2(p, Store2(p, "b"), map[0 := 1], SECOND, was, Committing(0, b));
    RunStep(s2, Does(1, Goes), s3, Steps(1, 3));
    RunStep(s3, Does(1, Goes), s4, Steps(1, 2));
    RunStep(s4, Does(1, Goes), s5, Steps(1, 1));
    RunStep(s5, Does(1, Goes), s6, Steps(1, 0));
    RunNone(s6);
  }

  /** An update from command "a" to "b" whose bot cannot be written: it is
      answered with an error, and the automation has command "b". */
  lemma FailedUpdateChanges(p: string)
    ensures var s := Run(Initial(), Created(p, SECOND));
            && s.Some? && |s.value.requests| == 2 && s.value.requests[1].place.Locked?
            && OwnAutos(s.value.store, p) == map[0 := Auto(p, Some(0), "a", "")]
            && var t := Run(s.value, Steps(1, 4) + [Does(1, Fails)]);
               t.Some? && |t.value.requests| == 2 && t.value.requests[1].place == Unlocking(false)
               && OwnAutos(t.value.store, p) == map[0 := Auto(p, Some(0), "b", "")]
  {
    hide Run, Steps, Created;
    var was := Some(Auto(p, Some(0), "a", ""));
    var s6 := Office2(p, Store2(p, "b"), map[0 := 1], SECOND, was, Committing(0, Auto(p, Some(0), "b", "")));
    var s7 := Office2(p, Store2(p, "b"), map[0 := 1], SECOND, was, Unlocking(false));
    UpdateLocked(p, SECOND);
    UpdateSaves(p);
    RunJoin(Office2(p, Store2(p, "a"), map[0 := 1], SECOND, None, Locked), Steps(1, 4), [Does(1, Fails)]);
    assert Uses(s6.store, 0, p, 0);
    RunStep(s6, Does(1, Fails), s7, []);
    RunNone(s7);
    assert [Does(1, Fails)] + [] == [Does(1, Fails)];
  }

  /** An update to a new bot that the store refuses: it is answered with an
      error, and the new bot is left, named by no automation. */
  lemma FailedUpdateLeavesBot(p: string)
    ensures var t := Run(Initial(), Created(p, FIRST) + (Steps(1, 3) + [Does(1, Fails)]));
            && t.Some? && |t.value.requests| == 2 && t.value.requests[1].place == Unlocking(false)
            && 1 in t.value.store.bots && !Minded(t.value, 1)
  {
    hide Run, Created;
    var was := Some(Auto(p, Some(0), "a", ""));
    var st := Store(map[0 := Auto(p, Some(0), "a", "")], map[0 := p, 1 := p], {}, 1, 2);
    var s2 := Office2(p, Store2(p, "a"), map[0 := 1], FIRST, None, Locked);
    var s3 := Office2(p, Store2(p, "a"), map[0 := 1], FIRST, was, Loaded);
    var s4 := Office2(p, st, map[0 := 1], FIRST, was, Saving(Some(1), Some(1)));
    var s5 := Office2(p, st, map[0 := 1], FIRST, was, Writing(Some(1), Auto(p, Some(1), "a", "")));
    var s6 := Office2(p, st.(orphans := {1}), map[0 := 1], FIRST, was, Unlocking(false));
    UpdateLocked(p, FIRST);
    RunJoin(Initial(), Created(p, FIRST), Steps(1, 3) + [Does(1, Fails)]);
    RunStep(s2, Does(1, Goes), s3, Steps(1, 2));
    RunStep(s3, Does(1, Goes), s4, Steps(1, 1));
    RunStep(s4, Does(1, Goes), s5, Steps(1, 0));
    RunNone(s5);
    RunJoin(s2, Steps(1, 3), [Does(1, Fails)]);
    RunStep(s5, Does(1, Fails), s6, []);
    RunNone(s6);
    assert [Does(1, Fails)] + [] == [Does(1, Fails)];
  }

  // ---- the loops over a project's automations ----

  /** botUsers, whatever order the list comes in. */
  method BotUsers(st: Store, project: string, bot: nat) returns (n: nat)
    ensures n == |set id | id in st.autos && Uses(st, id, project, bot)|
    ensures n > 0 <==> InUse(st, project, bot)
  {
    hide Uses;
    var todo := st.autos.Keys;
    ghost var counted: set<nat> := {};
    n := 0;
    while todo != {}
      invariant todo <= st.autos.Keys && n == |counted|
      invariant counted == set id | id in st.autos && id !in todo && Uses(st, id, project, bot)
      decreases todo
    {
      var id :| id in todo;
      todo := todo - {id};
      if Uses(st, id, project, bot) {
        counted := counted + {id};
        n := n + 1;
      }
    }
    assert counted == set id | id in st.autos && Uses(st, id, project, bot);
    if n > 0 {
      ghost var id :| id in counted;
    }
    if InUse(st, project, bot) {
      ghost var id :| id in st.autos && Uses(st, id, project, bot);
      assert id in counted;
    }
  }

  /** The check of a custom command in applyAutomation. */
  method CommandTaken(st: Store, project: string, op: Op, bot: nat, command: string) returns (taken: bool)
    ensures taken == Taken(st, project, op, bot, command)
  {
    hide Uses;
    var todo := st.autos.Keys;
    while todo != {}
      invariant todo <= st.autos.Keys
      invariant forall id | id in st.autos && id !in todo && Uses(st, id, project, bot) :: st.autos[id].command != command || op == Update(id)
      decreases todo
    {
      var id :| id in todo;
      todo := todo - {id};
      if op != Update(id) && Uses(st, id, project, bot) && st.autos[id].command == command {
        return true;
      }
    }
    taken := false;
  }
}
