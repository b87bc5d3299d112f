/** Which transactions and direct writes of src/database/sqliteAdapter.web.ts take effect, and in what order.
    A work runs on a copy of the tables that is swapped in when it ends. A direct write makes its table when it is
    called, and stores into whatever tables are current a promise job later. */
module TransactionQueue {
  import opened Prelude
  import opened OrderedMaps

  type TableName = string
  type RowId = string

  type Rows<R> = OrderedMap<RowId, R>
  type Tables<R> = OrderedMap<TableName, Rows<R>>

  /** What a work makes of the tables it is given; none if it throws. */
  type Work<!R> = Tables<R> -> Option<Tables<R>>

  /** `upsert`, `deleteById` and `deleteWhere` by what they do to the rows of their table. */
  datatype Write<!R> = Write(table: TableName, change: Rows<R> -> Rows<R>)

  function RowsOf<R>(tables: Tables<R>, t: TableName): Rows<R> {
    if t in tables.table then tables.table[t] else NoEntries()
  }

  /** The table is made on first use. */
  function EnsureTable<R>(tables: Tables<R>, t: TableName): Tables<R> {
    if t in tables.table then tables else Set(tables, t, NoEntries())
  }

  /** The second half of a direct write; without the table it does nothing. */
  function StoreRows<R>(tables: Tables<R>, w: Write<R>): Tables<R> {
    if w.table in tables.table then Set(tables, w.table, w.change(tables.table[w.table])) else tables
  }

  /** A direct write in one go. */
  function Whole<R>(tables: Tables<R>, w: Write<R>): Tables<R> { StoreRows(EnsureTable(tables, w.table), w) }

  // ---------- Steps ----------

  datatype Running<!R> = Running(work: Work<R>, copy: Tables<R>)

  /** What has taken effect: a transaction that has ended, or a stored write. */
  datatype Item<!R> = Ended(work: Work<R>) | Written(write: Write<R>)

  /** The promise jobs that are due run first in, first out: the rests of the writes in `stores`, then the start of
      the first waiting transaction if it is due, then `behind`. `settled` says that the promise of the transaction
      before the waiting ones, if any, has settled. `log` only records what has happened. */
  datatype State<!R> = State(
    tables: Tables<R>,
    stores: seq<Write<R>>,
    due: bool,
    behind: seq<Write<R>>,
    waiting: seq<Work<R>>,
    running: Option<Running<R>>,
    settled: bool,
    log: seq<Item<R>>)

  datatype Event<!R> =
    | Submit(work: Work<R>)  // `withTransaction` is called
    | Call(write: Write<R>)  // a direct write is called
    | Tick                   // the first job runs
    | End                    // the work returns or throws
    | Settle                 // its promise has settled

  function Idle<R>(tables: Tables<R>): State<R> { State(tables, [], false, [], [], None, true, []) }

  function Step<R>(s: State<R>, e: Event<R>): State<R> {
    match e
    case Submit(work) => s.(waiting := s.waiting + [work], due := s.due || (s.settled && s.waiting == []))
    case Call(w) =>
      var t := s.(tables := EnsureTable(s.tables, w.table));
      if s.due then t.(behind := s.behind + [w]) else t.(stores := s.stores + [w])
    case Tick => if s.stores != [] then StoreFirst(s) else if s.due && s.waiting != [] then BeginNext(s) else s
    case End =>
      if s.running.None? then s
      else
        var result := s.running.value.work(s.running.value.copy);
        s.(tables := if result.Some? then result.value else s.tables, running := None,
           log := s.log + [Ended(s.running.value.work)])
    case Settle =>
      if s.settled || s.running.Some? then s else s.(settled := true, due := s.waiting != [])
  }

  function StoreFirst<R>(s: State<R>): State<R>
    requires s.stores != []
  {
    s.(tables := StoreRows(s.tables, s.stores[0]), stores := s.stores[1..], log := s.log + [Written(s.stores[0])])
  }

  function BeginNext<R>(s: State<R>): State<R>
    requires s.waiting != []
  {
    s.(running := Some(Running(s.waiting[0], s.tables)), waiting := s.waiting[1..], settled := false,
       due := false, stores := s.behind, behind := [])
  }

  function Run<R>(s: State<R>, events: seq<Event<R>>): State<R> {
    if events == [] then s else Step(Run(s, events[..|events| - 1]), events[|events| - 1])
  }

  lemma RunAppend<R(!new)>(s: State<R>, events: seq<Event<R>>, e: Event<R>)
    ensures Run(s, events + [e]) == Step(Run(s, events), e)
  {
    assert (events + [e])[..|events|] == events;
  }

  // ---------- One after the other ----------

  function Effect<R>(tables: Tables<R>, item: Item<R>): Tables<R> {
    match item
    case Ended(work) => var result := work(tables); if result.Some? then result.value else tables
    case Written(w) => Whole(tables, w)
  }

  /** One item after the other, each in one go. */
  function Serial<R>(tables: Tables<R>, items: seq<Item<R>>): Tables<R> {
    if items == [] then tables else Effect(Serial(tables, items[..|items| - 1]), items[|items| - 1])
  }

  function Works<R>(items: seq<Item<R>>): seq<Work<R>> {
    if items == [] then []
    else Works(items[..|items| - 1]) + (if items[|items| - 1].Ended? then [items[|items| - 1].work] else [])
  }

  function Writes<R>(items: seq<Item<R>>): seq<Write<R>> {
    if items == [] then []
    else Writes(items[..|items| - 1]) + (if items[|items| - 1].Written? then [items[|items| - 1].write] else [])
  }

  lemma SerialAppend<R(!new)>(tables: Tables<R>, items: seq<Item<R>>, item: Item<R>)
    ensures Serial(tables, items + [item]) == Effect(Serial(tables, items), item)
  {
    assert (items + [item])[..|items|] == items;
  }

  lemma AppendItem<R(!new)>(items: seq<Item<R>>, item: Item<R>)
    ensures Works(items + [item]) == if item.Ended? then Works(items) + [item.work] else Works(items)
    ensures Writes(items + [item]) == if item.Written? then Writes(items) + [item.write] else Writes(items)
  {
    assert (items + [item])[..|items|] == items;
  }

  /** What was asked for: transactions and direct writes, in the order of the calls. */
  function Asked<R>(events: seq<Event<R>>): seq<Item<R>> {
    if events == [] then []
    else
      var e := events[|events| - 1];
      Asked(events[..|events| - 1])
      + AskedBy(e)
  }

  function AskedBy<R>(e: Event<R>): seq<Item<R>> {
    if e.Submit? then [Ended(e.work)] else if e.Call? then [Written(e.write)] else []
  }

  /** The tables with those of the writes made. */
  function EnsureAll<R>(tables: Tables<R>, writes: seq<Write<R>>): Tables<R>
    decreases |writes|
  {
    if writes == [] then tables else EnsureAll(EnsureTable(tables, writes[0].table), writes[1..])
  }

  /** The tables are the logged items one after the other, but for tables made for writes that are still to store. */
  ghost predicate InOrder<R(!new)>(start: Tables<R>, s: State<R>) {
    s.tables == EnsureAll(Serial(start, s.log), s.stores + s.behind)
  }

  /** A transaction runs, or its start is due before the rest of any write that is called now. */
  predicate Busy<R>(s: State<R>) { s.running.Some? || s.due }

  /** A start is due exactly when works wait and the one before has settled; none is due while one runs. */
  predicate Scheduled<R>(s: State<R>) {
    && (s.running.Some? ==> !s.settled)
    && (s.due <==> s.settled && s.waiting != [])
    && (!s.due ==> s.behind == [])
  }

  /** No write is to be stored while a transaction runs, or after one that is due. */
  ghost predicate NoneBehind<R(!new)>(s: State<R>) {
    s.behind == [] && (s.running.Some? ==> s.stores == [] && s.running.value.copy == s.tables)
  }

  ghost predicate CallsWhileFree<R(!new)>(start: Tables<R>, events: seq<Event<R>>) {
    forall k | 0 <= k < |events| :: events[k].Call? ==> !Busy(Run(Idle(start), events[..k]))
  }

  // ---------- Every request takes effect once ----------

  function RunningWork<R>(s: State<R>): seq<Work<R>> { if s.running.Some? then [s.running.value.work] else [] }

  /** Works and writes that have taken effect or will, each in the order of the calls. */
  ghost predicate Logged<R(!new)>(s: State<R>, asked: seq<Item<R>>) {
    && Works(asked) == Works(s.log) + RunningWork(s) + s.waiting
    && Writes(asked) == Writes(s.log) + s.stores + s.behind
  }

  lemma SubmitLogged<R(!new)>(s: State<R>, asked: seq<Item<R>>, work: Work<R>)
    requires Logged(s, asked)
    ensures Logged(Step(s, Submit(work)), asked + [Ended(work)])
  {
    hide Works, Writes;
    AppendItem(asked, Ended(work));
    Associate(Works(s.log) + RunningWork(s), s.waiting, [work]);
  }

  lemma CallLogged<R(!new)>(s: State<R>, asked: seq<Item<R>>, w: Write<R>)
    requires Logged(s, asked) && Scheduled(s)
    ensures Logged(Step(s, Call(w)), asked + [Written(w)])
  {
    hide Works, Writes, EnsureTable;
    AppendItem(asked, Written(w));
    var all := Writes(s.log) + s.stores;
    assert s.behind + [w] == [w] || s.due;
    Associate(all, s.behind, [w]);
    Associate(Writes(s.log), s.stores, [w]);
    assert !s.due ==> all + s.behind == all && (all + [w]) + [] == all + [w];
  }

  lemma Associate<T>(a: seq<T>, b: seq<T>, c: seq<T>)
    ensures a + (b + c) == (a + b) + c
  {
  }

  lemma StoreLogged<R(!new)>(s: State<R>, asked: seq<Item<R>>)
    requires Logged(s, asked) && s.stores != []
    ensures Logged(StoreFirst(s), asked)
  {
    hide Works, Writes, StoreRows;
    AppendItem(s.log, Written(s.stores[0]));
    assert s.stores == [s.stores[0]] + s.stores[1..];
    Associate(Writes(s.log), [s.stores[0]], s.stores[1..]);
  }

  lemma BeginLogged<R(!new)>(s: State<R>, asked: seq<Item<R>>)
    requires Logged(s, asked) && s.stores == [] && s.waiting != [] && s.running.None?
    ensures Logged(BeginNext(s), asked)
  {
    hide Works, Writes;
    assert s.waiting == [s.waiting[0]] + s.waiting[1..];
    assert Works(s.log) + [] == Works(s.log);
    Associate(Works(s.log), [s.waiting[0]], s.waiting[1..]);
    assert (Writes(s.log) + []) + s.behind == (Writes(s.log) + s.behind) + [];
  }

  lemma EndLogged<R(!new)>(s: State<R>, asked: seq<Item<R>>)
    requires Logged(s, asked)
    ensures Logged(Step(s, End), asked)
  {
    hide Works, Writes;
    if s.running.Some? {
      AppendItem(s.log, Ended(s.running.value.work));
    }
  }

  lemma StepScheduled<R(!new)>(s: State<R>, e: Event<R>)
    requires Scheduled(s)
    ensures Scheduled(Step(s, e))
  {
    hide EnsureTable, StoreRows;
  }

  lemma {:induction false} RunLogged<R(!new)>(start: Tables<R>, events: seq<Event<R>>)
    ensures Scheduled(Run(Idle(start), events)) && Logged(Run(Idle(start), events), Asked(events))
  {
    if events != [] {
      hide Step, Logged, Scheduled;
      var front, e := events[..|events| - 1], events[|events| - 1];
      RunLogged(start, front);
      var s := Run(Idle(start), front);
      StepScheduled(s, e);
      StepLogged(s, Asked(front), e);
    }
  }

  lemma StepLogged<R(!new)>(s: State<R>, asked: seq<Item<R>>, e: Event<R>)
    requires Scheduled(s) && Logged(s, asked)
    ensures Logged(Step(s, e), asked + AskedBy(e))
  {
    hide Logged, StoreFirst, BeginNext;
    assert asked + [] == asked;
    match e
    case Submit(work) => SubmitLogged(s, asked, work);
    case Call(w) => CallLogged(s, asked, w);
    case Tick =>
      if s.stores != [] {
        StoreLogged(s, asked);
      } else if s.due && s.waiting != [] {
        BeginLogged(s, asked);
      }
    case End => EndLogged(s, asked);
    case Settle => SettleLogged(s, asked);
  }

  lemma SettleLogged<R(!new)>(s: State<R>, asked: seq<Item<R>>)
    requires Logged(s, asked)
    ensures Logged(Step(s, Settle), asked)
  {
    hide Works, Writes;
  }

  // ---------- Tables made early ----------

  lemma {:induction false} EnsureAllAppend<R(!new)>(tables: Tables<R>, writes: seq<Write<R>>, w: Write<R>)
    ensures EnsureAll(tables, writes + [w]) == EnsureTable(EnsureAll(tables, writes), w.table)
    decreases |writes|
  {
    hide EnsureTable;
    if writes != [] {
      assert (writes + [w])[1..] == writes[1..] + [w];
      EnsureAllAppend(EnsureTable(tables, writes[0].table), writes[1..], w);
    } else {
      assert EnsureAll(tables, [w]) == EnsureAll(EnsureTable(tables, w.table), [w][1..]);
    }
  }

  /** Storing rows into a table that is there commutes with making tables. */
  lemma StoreThenEnsure<R(!new)>(tables: Tables<R>, w: Write<R>, t: TableName)
    requires w.table in tables.table
    ensures StoreRows(EnsureTable(tables, t), w) == EnsureTable(StoreRows(tables, w), t)
    ensures w.table in EnsureTable(tables, t).table
  {
    if t !in tables.table {
      var v := w.change(tables.table[w.table]);
      assert tables.table[t := NoEntries()][w.table := v] == tables.table[w.table := v][t := NoEntries()];
    }
  }

  lemma {:induction false} StoreThenEnsureAll<R(!new)>(tables: Tables<R>, w: Write<R>, writes: seq<Write<R>>)
    requires w.table in tables.table
    ensures StoreRows(EnsureAll(tables, writes), w) == EnsureAll(StoreRows(tables, w), writes)
    decreases |writes|
  {
    hide EnsureTable, StoreRows;
    if writes != [] {
      StoreThenEnsure(tables, w, writes[0].table);
      StoreThenEnsureAll(EnsureTable(tables, writes[0].table), w, writes[1..]);
    }
  }

  lemma EnsuredIsThere<R(!new)>(tables: Tables<R>, t: TableName)
    ensures t in EnsureTable(tables, t).table
  {
  }

  // ---------- Transactions are serial ----------

  lemma CallInOrder<R(!new)>(start: Tables<R>, s: State<R>, w: Write<R>)
    requires InOrder(start, s) && (!s.due ==> s.behind == [])
    ensures InOrder(start, Step(s, Call(w)))
  {
    EnsureAllAppend(Serial(start, s.log), s.stores + s.behind, w);
    hide EnsureAll, Serial, EnsureTable;
    if s.due {
      assert s.stores + (s.behind + [w]) == s.stores + s.behind + [w];
    } else {
      assert (s.stores + [w]) + s.behind == s.stores + s.behind + [w];
    }
  }

  lemma TickInOrder<R(!new)>(start: Tables<R>, s: State<R>)
    requires InOrder(start, s)
    ensures InOrder(start, Step(s, Tick))
  {
    if s.stores != [] {
      var w, rest := s.stores[0], s.stores[1..] + s.behind;
      var before := Serial(start, s.log);
      assert (s.stores + s.behind)[1..] == rest;
      EnsuredIsThere(before, w.table);
      StoreThenEnsureAll(EnsureTable(before, w.table), w, rest);
      SerialAppend(start, s.log, Written(w));
      hide Serial, EnsureTable, StoreRows;
    } else {
      assert s.stores + s.behind == s.behind == s.behind + [];
      hide Serial, EnsureAll;
    }
  }

  lemma EndInOrder<R(!new)>(start: Tables<R>, s: State<R>)
    requires InOrder(start, s) && NoneBehind(s)
    ensures InOrder(start, Step(s, End)) && NoneBehind(Step(s, End))
  {
    hide Serial, EnsureAll, StoreRows, EnsureTable;
    if s.running.Some? {
      SerialAppend(start, s.log, Ended(s.running.value.work));
      assert s.stores + s.behind == [];
      NothingToEnsure(Serial(start, s.log));
      NothingToEnsure(Effect(Serial(start, s.log), Ended(s.running.value.work)));
    }
  }

  lemma NothingToEnsure<R(!new)>(tables: Tables<R>)
    ensures EnsureAll(tables, []) == tables
  {
  }

  lemma StepInOrder<R(!new)>(start: Tables<R>, s: State<R>, e: Event<R>)
    requires Scheduled(s) && InOrder(start, s) && NoneBehind(s) && (e.Call? ==> !Busy(s))
    ensures InOrder(start, Step(s, e)) && NoneBehind(Step(s, e))
  {
    hide InOrder;
    match e
    case Submit(work) => assert InOrder(start, Step(s, e)) by { SameTables(start, s, Step(s, e)); }
    case Call(w) => CallInOrder(start, s, w);
    case Tick => TickInOrder(start, s); hide StoreRows;
    case End => EndInOrder(start, s);
    case Settle => assert InOrder(start, Step(s, e)) by { SameTables(start, s, Step(s, e)); }
  }

  lemma SameTables<R(!new)>(start: Tables<R>, s: State<R>, t: State<R>)
    requires InOrder(start, s)
    requires s.tables == t.tables && s.log == t.log && s.stores == t.stores && s.behind == t.behind
    ensures InOrder(start, t)
  {
  }

  lemma {:induction false} RunInOrder<R(!new)>(start: Tables<R>, s: State<R>, events: seq<Event<R>>)
    requires Scheduled(s) && InOrder(start, s) && NoneBehind(s)
    requires forall k | 0 <= k < |events| :: events[k].Call? ==> !Busy(Run(s, events[..k]))
    ensures var t := Run(s, events); Scheduled(t) && InOrder(start, t) && NoneBehind(t)
  {
    if events != [] {
      hide Step, Scheduled, InOrder, NoneBehind, Busy;
      var front := events[..|events| - 1];
      assert forall k | 0 <= k < |front| :: front[..k] == events[..k];
      RunInOrder(start, s, front);
      StepScheduled(Run(s, front), events[|events| - 1]);
      StepInOrder(start, Run(s, front), events[|events| - 1]);
    }
  }

  lemma IdleInOrder<R(!new)>(start: Tables<R>)
    ensures var s := Idle(start); Scheduled(s) && InOrder(start, s) && NoneBehind(s)
  {
    var none: seq<Write<R>> := [];
    assert none + none == none;
  }

  /** However submissions, calls, jobs and ends interleave, as long as no direct write is called while a transaction
      runs or is due: the tables are the stored writes and the ended works one after the other, each in one go, and
      a work runs on exactly those tables. In every run works and writes take effect in the order of their calls. */
  lemma TransactionsAreSerial<R(!new)>(start: Tables<R>, events: seq<Event<R>>)
    ensures var s, asked := Run(Idle(start), events), Asked(events);
            && Works(s.log) + RunningWork(s) + s.waiting == Works(asked)
            && Writes(s.log) + s.stores + s.behind == Writes(asked)
    ensures CallsWhileFree(start, events) ==>
              var s := Run(Idle(start), events);
              && s.tables == EnsureAll(Serial(start, s.log), s.stores + s.behind)
              && (s.running.Some? ==> s.running.value.copy == s.tables == Serial(start, s.log))
  {
    RunLogged(start, events);
    if CallsWhileFree(start, events) {
      IdleInOrder(start);
      RunInOrder(start, Idle(start), events);
    }
    hide Run, Asked, Works, Writes, Serial;
  }

  /** The items that do not throw when their turn comes. */
  function Successful<R>(tables: Tables<R>, items: seq<Item<R>>): seq<Item<R>> {
    if items == [] then []
    else
      var front, last := items[..|items| - 1], items[|items| - 1];
      Successful(tables, front) + (if last.Written? || last.work(Serial(tables, front)).Some? then [last] else [])
  }

  /** A failed work leaves no trace: leaving the failed works out altogether gives the same tables. */
  lemma {:induction false} FailuresLeaveNoTrace<R(!new)>(tables: Tables<R>, items: seq<Item<R>>)
    ensures Serial(tables, Successful(tables, items)) == Serial(tables, items)
  {
    if items != [] {
      var front, last := items[..|items| - 1], items[|items| - 1];
      FailuresLeaveNoTrace(tables, front);
      SerialAppend(tables, Successful(tables, front), last);
      assert last.Ended? && last.work(Serial(tables, front)).None?
        ==> Successful(tables, items) == Successful(tables, front);
      hide Whole;
    }
  }

  // ---------- Everything in the order of the calls ----------

  /** Direct writes are called only when no transaction runs or waits. */
  ghost predicate CallsWhileIdle<R(!new)>(start: Tables<R>, events: seq<Event<R>>) {
    forall k | 0 <= k < |events| && events[k].Call? ::
      var s := Run(Idle(start), events[..k]); s.running.None? && s.waiting == []
  }

  function Stores<R>(writes: seq<Write<R>>): (r: seq<Item<R>>)
    ensures |r| == |writes| && forall i | 0 <= i < |writes| :: r[i] == Written(writes[i])
  {
    seq(|writes|, i requires 0 <= i < |writes| => Written(writes[i]))
  }

  function Ends<R>(works: seq<Work<R>>): (r: seq<Item<R>>)
    ensures |r| == |works| && forall i | 0 <= i < |works| :: r[i] == Ended(works[i])
  {
    seq(|works|, i requires 0 <= i < |works| => Ended(works[i]))
  }

  /** What is still to come: writes to store, the running work, and the waiting ones. */
  function Left<R>(s: State<R>): seq<Item<R>> { Stores(s.stores) + (Ends(RunningWork(s)) + Ends(s.waiting)) }

  /** What was asked for, in one line: done, to be stored, running, waiting. */
  ghost predicate InLine<R(!new)>(s: State<R>, asked: seq<Item<R>>) {
    asked == s.log + Left(s) && s.behind == [] && (s.running.Some? ==> s.stores == [])
  }

  lemma StoresFirst<R(!new)>(writes: seq<Write<R>>)
    requires writes != []
    ensures Stores(writes) == [Written(writes[0])] + Stores(writes[1..])
  {
  }

  lemma EndsFirst<R(!new)>(works: seq<Work<R>>)
    requires works != []
    ensures Ends(works) == [Ended(works[0])] + Ends(works[1..])
  {
  }

  lemma SubmitInLine<R(!new)>(s: State<R>, work: Work<R>)
    ensures Left(Step(s, Submit(work))) == Left(s) + [Ended(work)]
  {
    assert Ends(s.waiting + [work]) == Ends(s.waiting) + [Ended(work)];
  }

  lemma CallInLine<R(!new)>(s: State<R>, w: Write<R>)
    requires s.running.None? && s.waiting == [] && !s.due
    ensures Left(Step(s, Call(w))) == Left(s) + [Written(w)]
  {
    hide EnsureTable;
    StoresAppend(s.stores, [w]);
    assert Ends(RunningWork(s)) + Ends(s.waiting) == [];
  }

  lemma StoreInLine<R(!new)>(s: State<R>)
    requires s.stores != []
    ensures Left(s) == [Written(s.stores[0])] + Left(StoreFirst(s))
  {
    StoresFirst(s.stores);
  }

  lemma BeginInLine<R(!new)>(s: State<R>)
    requires s.stores == [] && s.behind == [] && s.running.None? && s.waiting != []
    ensures Left(BeginNext(s)) == Left(s)
  {
    EndsFirst(s.waiting);
    assert Ends([s.waiting[0]]) == [Ended(s.waiting[0])];
  }

  lemma EndInLine<R(!new)>(s: State<R>)
    requires s.running.Some? && s.stores == []
    ensures Left(s) == [Ended(s.running.value.work)] + Left(Step(s, End))
  {
    assert Ends([s.running.value.work]) == [Ended(s.running.value.work)];
  }

  lemma StepInLine<R(!new)>(s: State<R>, asked: seq<Item<R>>, e: Event<R>)
    requires Scheduled(s) && InLine(s, asked) && (e.Call? ==> s.running.None? && s.waiting == [])
    ensures InLine(Step(s, e), asked + AskedBy(e))
  {
    hide EnsureTable, StoreRows, Left;
    assert asked + [] == asked;
    match e
    case Submit(work) => SubmitInLine(s, work); Associate(s.log, Left(s), [Ended(work)]);
    case Call(w) => CallInLine(s, w); Associate(s.log, Left(s), [Written(w)]);
    case Tick =>
      if s.stores != [] {
        StoreInLine(s);
        Associate(s.log, [Written(s.stores[0])], Left(StoreFirst(s)));
      } else if s.due && s.waiting != [] {
        BeginInLine(s);
      }
    case End =>
      if s.running.Some? {
        EndInLine(s);
        Associate(s.log, [Ended(s.running.value.work)], Left(Step(s, End)));
      }
    case Settle => assert Left(Step(s, Settle)) == Left(s) by { SettleInLine(s); }
  }

  lemma SettleInLine<R(!new)>(s: State<R>)
    ensures Left(Step(s, Settle)) == Left(s)
  {
  }

  lemma {:induction false} RunInLine<R(!new)>(start: Tables<R>, events: seq<Event<R>>)
    requires CallsWhileIdle(start, events)
    ensures InLine(Run(Idle(start), events), Asked(events))
  {
    hide Step, InLine, Scheduled, Logged;
    if events != [] {
      var front, last := events[..|events| - 1], events[|events| - 1];
      assert forall k | 0 <= k < |front| :: front[..k] == events[..k];
      RunInLine(start, front);
      RunLogged(start, front);
      StepInLine(Run(Idle(start), front), Asked(front), last);
    } else {
      NothingInLine(start);
    }
  }

  lemma IdleCallsAreFree<R(!new)>(start: Tables<R>, events: seq<Event<R>>)
    requires CallsWhileIdle(start, events)
    ensures CallsWhileFree(start, events)
  {
    forall k | 0 <= k < |events| && events[k].Call? ensures !Busy(Run(Idle(start), events[..k])) {
      hide Run, Logged;
      RunLogged(start, events[..k]);
      IdleIsFree(Run(Idle(start), events[..k]));
    }
  }

  lemma NothingInLine<R(!new)>(start: Tables<R>)
    ensures InLine(Idle(start), [])
  {
  }

  lemma IdleIsFree<R(!new)>(s: State<R>)
    requires Scheduled(s)
    ensures s.running.None? && s.waiting == [] ==> !Busy(s)
  {
  }

  /** If no direct write is called while a transaction runs or waits, the whole run is what was asked for, in the order
      of the calls: done, to be stored, running and waiting. Once nothing is left to do, the tables are all of it. */
  lemma CallsInOrder<R(!new)>(start: Tables<R>, events: seq<Event<R>>)
    requires CallsWhileIdle(start, events)
    ensures var s := Run(Idle(start), events);
            && Asked(events) == s.log + (Stores(s.stores) + (Ends(RunningWork(s)) + Ends(s.waiting)))
            && (s.running.None? && s.waiting == [] && s.stores == [] ==> s.tables == Serial(start, Asked(events)))
  {
    hide Run, Asked, Serial, Works, Writes;
    RunInLine(start, events);
    IdleCallsAreFree(start, events);
    TransactionsAreSerial(start, events);
    var s := Run(Idle(start), events);
    if s.running.None? && s.waiting == [] && s.stores == [] {
      assert Left(s) == [] && s.log + [] == s.log && s.stores + s.behind == [];
    }
  }

  // ---------- Everything gets its turn ----------

  /** How many jobs, ends and settlings are still to come. */
  function ToDo<R>(s: State<R>): nat {
    |s.stores| + |s.behind| + 3 * |s.waiting| + (if s.running.Some? then 2 else if !s.settled then 1 else 0)
  }

  /** A job, the end of a work and the settling of a promise, each if there is one, `n` times over. */
  function Turns<R>(n: nat): seq<Event<R>> { if n == 0 then [] else Turns(n - 1) + [Tick, End, Settle] }

  function Turn<R>(s: State<R>): State<R> { Step(Step(Step(s, Tick), End), Settle) }

  lemma StepToDo<R(!new)>(s: State<R>, e: Event<R>)
    requires Scheduled(s)
    ensures ToDo(Step(s, e)) <= ToDo(s) + (if e.Submit? then 3 else if e.Call? then 1 else 0)
    ensures e.Tick? && (s.stores != [] || s.due) ==> ToDo(Step(s, e)) < ToDo(s)
    ensures e.End? && s.running.Some? ==> ToDo(Step(s, e)) < ToDo(s)
    ensures e.Settle? && s.running.None? && !s.settled ==> ToDo(Step(s, e)) < ToDo(s)
  {
    hide EnsureTable, StoreRows;
  }

  /** As long as something is left, a turn brings it forward: the queue is never stuck. */
  lemma TurnProgress<R(!new)>(s: State<R>)
    requires Scheduled(s)
    ensures Scheduled(Turn(s)) && (if ToDo(s) > 0 then ToDo(Turn(s)) < ToDo(s) else ToDo(Turn(s)) == 0)
  {
    hide Step;
    var t := Step(s, Tick);
    var u := Step(t, End);
    StepScheduled(s, Tick);
    StepScheduled(t, End);
    StepScheduled(u, Settle);
    StepToDo(s, Tick);
    StepToDo(t, End);
    StepToDo(u, Settle);
    if s.stores == [] && !s.due {
      NothingDue(s);
      if s.running.None? {
        NothingRuns(s);
      }
    }
  }

  lemma NothingDue<R(!new)>(s: State<R>)
    requires s.stores == [] && !s.due
    ensures Step(s, Tick) == s
  {
  }

  lemma NothingRuns<R(!new)>(s: State<R>)
    requires s.running.None?
    ensures Step(s, End) == s
  {
  }

  lemma {:induction false} RunToDo<R(!new)>(start: Tables<R>, events: seq<Event<R>>)
    ensures ToDo(Run(Idle(start), events)) <= 3 * |events|
  {
    if events != [] {
      hide Step, ToDo, Scheduled, Logged;
      var front := events[..|events| - 1];
      RunToDo(start, front);
      RunLogged(start, front);
      StepToDo(Run(Idle(start), front), events[|events| - 1]);
    }
  }

  lemma {:induction false} TurnsProgress<R(!new)>(start: Tables<R>, events: seq<Event<R>>, n: nat)
    ensures var s, t := Run(Idle(start), events), Run(Idle(start), events + Turns(n));
            Asked(events + Turns(n)) == Asked(events) && (ToDo(t) == 0 || ToDo(t) + n <= ToDo(s))
  {
    hide Step, ToDo, Scheduled, Logged, Run, Asked;
    if n == 0 {
      assert events + Turns<R>(0) == events;
    } else {
      var before := events + Turns(n - 1);
      TurnsProgress(start, events, n - 1);
      RunLogged(start, before);
      TurnProgress(Run(Idle(start), before));
      OneTurn(start, before);
      assert events + Turns(n) == before + [Tick, End, Settle];
    }
  }

  lemma OneTurn<R(!new)>(start: Tables<R>, events: seq<Event<R>>)
    ensures Run(Idle(start), events + [Tick, End, Settle]) == Turn(Run(Idle(start), events))
    ensures Asked(events + [Tick, End, Settle]) == Asked(events)
  {
    hide Step, Run, Asked;
    assert events + [Tick, End, Settle] == events + [Tick] + [End] + [Settle];
    RunAppend(Idle(start), events, Tick);
    RunAppend(Idle(start), events + [Tick], End);
    RunAppend(Idle(start), events + [Tick] + [End], Settle);
    AskedAppend(events, Tick);
    AskedAppend(events + [Tick], End);
    AskedAppend(events + [Tick] + [End], Settle);
  }

  lemma AskedAppend<R(!new)>(events: seq<Event<R>>, e: Event<R>)
    ensures Asked(events + [e]) == Asked(events) + AskedBy(e)
  {
    assert (events + [e])[..|events|] == events;
  }

  lemma {:induction false} TurnsCallNothing<R(!new)>(start: Tables<R>, events: seq<Event<R>>, n: nat)
    ensures forall e <- Turns<R>(n) :: !e.Call?
    ensures CallsWhileIdle(start, events) ==> CallsWhileIdle(start, events + Turns(n))
  {
    if n > 0 {
      TurnsCallNothing(start, events, n - 1);
    }
    var all := events + Turns(n);
    forall k | |events| <= k < |all| ensures !all[k].Call? {
      assert all[k] == Turns<R>(n)[k - |events|];
    }
    assert forall k | 0 <= k < |events| :: all[..k] == events[..k];
    hide Run, Turns;
  }

  /** Whatever has been called, after enough turns, and no more than three for each event, nothing waits, runs or is to
      be stored: every work called has had its turn and every write has been stored, in the order of the calls. If no
      direct write was called while a transaction ran or waited, the tables are then all that was asked for. */
  lemma EverythingTakesEffect<R(!new)>(start: Tables<R>, events: seq<Event<R>>, n: nat)
    requires n >= 3 * |events|
    ensures var t, asked := Run(Idle(start), events + Turns(n)), Asked(events);
            && t.running.None? && t.settled && t.waiting == [] && t.stores == [] && t.behind == []
            && Works(t.log) == Works(asked) && Writes(t.log) == Writes(asked)
            && (CallsWhileIdle(start, events) ==> t.log == asked && t.tables == Serial(start, asked))
  {
    hide Run, Asked, Serial, Works, Writes, Turns, Step, CallsWhileIdle;
    var t := Run(Idle(start), events + Turns(n));
    RunToDo(start, events);
    TurnsProgress(start, events, n);
    RunLogged(start, events + Turns(n));
    assert ToDo(t) == 0;
    assert Works(t.log) + [] + [] == Works(t.log) && Writes(t.log) + [] + [] == Writes(t.log);
    if CallsWhileIdle(start, events) {
      TurnsCallNothing(start, events, n);
      CallsInOrder(start, events + Turns(n));
      assert t.log + [] == t.log;
    }
  }

  // ---------- When a direct write survives ----------

  /** The same state, had the transaction that runs, or is the next to run, been given another work. */
  function WithNext<R>(s: State<R>, work: Work<R>): State<R> {
    if s.running.Some? then s.(running := Some(s.running.value.(work := work)))
    else if s.waiting != [] then s.(waiting := [work] + s.waiting[1..])
    else s
  }

  function Ticks<R>(n: nat): seq<Event<R>> { seq(n, _ => Tick) }

  /** What comes after a call that comes too late: the jobs up to the store, and the end of the work. */
  function TooLate<R>(s: State<R>): seq<Event<R>> {
    Ticks(|s.stores|) + (if s.due then [Tick] else []) + [Tick] + [End]
  }

  /** A direct write that changes something is called, after a run in which each earlier one was called while no
      transaction ran or was due. It keeps its place among works and writes, whatever the next work does and whatever
      happens afterwards, if and only if it is called like that itself; it is when no transaction runs or waits. */
  lemma DirectWriteSurvives<R(!new)>(start: Tables<R>, events: seq<Event<R>>, w: Write<R>)
    requires CallsWhileFree(start, events)
    requires var s := Run(Idle(start), events);
             var rows := RowsOf(Serial(start, s.log + Stores(s.stores)), w.table); w.change(rows) != rows
    ensures var s := Run(Idle(start), events);
            !Busy(s) <==>
            forall next: Work<R>, after: seq<Event<R>> | (forall e <- after :: !e.Call?) ::
              InOrder(start, Run(Step(WithNext(s, next), Call(w)), after))
    ensures var s := Run(Idle(start), events); s.running.None? && s.waiting == [] ==> !Busy(s)
  {
    hide Run, Step, InOrder, Serial, Scheduled, NoneBehind, RowsOf;
    IdleInOrder(start);
    RunInOrder(start, Idle(start), events);
    hide CallsWhileFree;
    var s := Run(Idle(start), events);
    IdleIsFree(s);
    if !Busy(s) {
      forall next: Work<R>, after: seq<Event<R>> | forall e <- after :: !e.Call?
        ensures InOrder(start, Run(Step(WithNext(s, next), Call(w)), after))
      {
        FreeCallKept(start, s, w, next, after);
      }
    } else {
      var keep: Work<R> := tables => Some(tables);
      LateCallLost(start, s, w, keep);
      assert !InOrder(start, Run(Step(WithNext(s, keep), Call(w)), TooLate(s)));
    }
  }

  lemma FreeCallKept<R(!new)>(start: Tables<R>, s: State<R>, w: Write<R>, next: Work<R>, after: seq<Event<R>>)
    requires Scheduled(s) && InOrder(start, s) && NoneBehind(s) && !Busy(s) && forall e <- after :: !e.Call?
    ensures InOrder(start, Run(Step(WithNext(s, next), Call(w)), after))
  {
    var t := WithNext(s, next);
    SameTables(start, s, t);
    hide InOrder;
    StepScheduled(t, Call(w));
    StepInOrder(start, t, Call(w));
    RunInOrder(start, Step(t, Call(w)), after);
  }

  lemma TickAgain<R(!new)>(start: Tables<R>, s: State<R>, t: State<R>, n: nat)
    requires InOrder(start, t) && 0 < n <= |s.stores|
    requires t == s.(tables := t.tables, stores := s.stores[n - 1..], log := s.log + Stores(s.stores[..n - 1]))
    ensures var u := Step(t, Tick);
            && InOrder(start, u)
            && u == s.(tables := u.tables, stores := s.stores[n..], log := s.log + Stores(s.stores[..n]))
  {
    hide InOrder, StoreRows;
    TickInOrder(start, t);
    var w := s.stores[n - 1];
    assert t.stores[0] == w && t.stores[1..] == s.stores[n..];
    assert s.stores[..n] == s.stores[..n - 1] + [w];
    StoresAppend(s.stores[..n - 1], [w]);
    assert Stores([w]) == [Written(w)];
    Associate(s.log, Stores(s.stores[..n - 1]), [Written(w)]);
  }

  lemma {:induction false} RunTicks<R(!new)>(start: Tables<R>, s: State<R>, n: nat)
    requires InOrder(start, s) && n <= |s.stores|
    ensures var t := Run(s, Ticks(n));
            && InOrder(start, t)
            && t == s.(tables := t.tables, stores := s.stores[n..], log := s.log + Stores(s.stores[..n]))
  {
    hide InOrder, Step;
    if n == 0 {
      assert Ticks<R>(0) == [] && s.stores[..0] == [] && s.log + Stores([]) == s.log;
    } else {
      RunTicks(start, s, n - 1);
      assert Ticks<R>(n) == Ticks(n - 1) + [Tick];
      RunAppend(s, Ticks(n - 1), Tick);
      hide Run;
      TickAgain(start, s, Run(s, Ticks(n - 1)), n);
    }
  }

  /** A whole write changes the rows of its table as it says, makes the table if need be, and leaves all others. */
  lemma WholeRows<R(!new)>(tables: Tables<R>, w: Write<R>)
    ensures RowsOf(Whole(tables, w), w.table) == w.change(RowsOf(tables, w.table))
    ensures RowsOf(EnsureTable(tables, w.table), w.table) == RowsOf(tables, w.table)
    ensures forall t | t != w.table ::
              (t in Whole(tables, w).table <==> t in tables.table) && RowsOf(Whole(tables, w), t) == RowsOf(tables, t)
    ensures w.table in Whole(tables, w).table
  {
  }

  /** A store while a work runs that changes nothing: the store is undone. */
  lemma LateTail<R(!new)>(start: Tables<R>, s: State<R>, w: Write<R>)
    requires s.running.Some? && s.stores == [w] && s.behind == []
    requires s.running.value.work(s.running.value.copy) == Some(s.running.value.copy)
    requires var rows := RowsOf(Serial(start, s.log), w.table);
             RowsOf(s.running.value.copy, w.table) == rows && w.change(rows) != rows
    requires s.running.value.work(Whole(Serial(start, s.log), w)) == Some(Whole(Serial(start, s.log), w))
    ensures !InOrder(start, Step(Step(s, Tick), End))
  {
    var before, work := Serial(start, s.log), s.running.value.work;
    SerialAppend(start, s.log, Written(w));
    SerialAppend(start, s.log + [Written(w)], Ended(work));
    WholeRows(before, w);
    hide Serial, RowsOf, Whole, StoreRows;
    var t := Step(Step(s, Tick), End);
    assert t.tables == s.running.value.copy && t.stores + t.behind == [];
    assert t.log == s.log + [Written(w)] + [Ended(work)];
    assert Serial(start, t.log) == Whole(before, w);
  }

  /** Called while a work runs: stored before it ends. */
  lemma CallWhileRunningLost<R(!new)>(start: Tables<R>, s: State<R>, w: Write<R>)
    requires Scheduled(s) && InOrder(start, s) && NoneBehind(s) && s.running.Some?
    requires var rows := RowsOf(Serial(start, s.log), w.table); w.change(rows) != rows
    requires forall tables :: s.running.value.work(tables) == Some(tables)
    ensures !InOrder(start, Run(Step(s, Call(w)), [Tick] + [End]))
  {
    hide Run, RowsOf, Whole, Serial, EnsureTable;
    var u := Step(s, Call(w));
    assert [w] == s.stores + [w] && s.stores + s.behind == [];
    LateTail(start, u, w);
    RunTwo(u, Tick, End);
  }

  lemma RunTwo<R(!new)>(s: State<R>, a: Event<R>, b: Event<R>)
    ensures Run(s, [a] + [b]) == Step(Step(s, a), b)
  {
    hide Step;
    var none: seq<Event<R>> := [];
    assert Run(s, none) == s && none + [a] == [a];
    RunAppend(s, none, a);
    RunAppend(s, [a], b);
  }

  /** Called while the start of a transaction is due: stored behind that start, and before the work ends. */
  lemma CallWhileDueLost<R(!new)>(start: Tables<R>, s: State<R>, w: Write<R>)
    requires InOrder(start, s) && s.due && s.running.None? && s.waiting != [] && s.behind == []
    requires var rows := RowsOf(Serial(start, s.log + Stores(s.stores)), w.table); w.change(rows) != rows
    requires forall tables :: s.waiting[0](tables) == Some(tables)
    ensures !InOrder(start, Run(Step(s, Call(w)), Ticks(|s.stores|) + [Tick] + [Tick] + [End]))
  {
    hide Run, RowsOf, Whole, Serial, EnsureTable, InOrder, Step;
    var u, n := Step(s, Call(w)), |s.stores|;
    CallInOrder(start, s, w);
    assert u == s.(tables := u.tables, behind := [w]) by { LateCall(s, w); }
    RunTicks(start, u, n);
    assert u.stores[..n] == s.stores && u.stores[n..] == [];
    var v := Run(u, Ticks(n));
    assert v == s.(tables := v.tables, stores := [], behind := [w], log := s.log + Stores(s.stores));
    RunAppend(u, Ticks(n), Tick);
    RunAppend(u, Ticks(n) + [Tick], Tick);
    RunAppend(u, Ticks(n) + [Tick] + [Tick], End);
    BeginLate(start, v, w);
  }

  lemma LateCall<R(!new)>(s: State<R>, w: Write<R>)
    requires s.due && s.behind == []
    ensures Step(s, Call(w)) == s.(tables := EnsureTable(s.tables, w.table), behind := [w])
  {
  }

  lemma BeginLate<R(!new)>(start: Tables<R>, s: State<R>, w: Write<R>)
    requires InOrder(start, s) && s.due && s.waiting != [] && s.stores == [] && s.behind == [w]
    requires var rows := RowsOf(Serial(start, s.log), w.table); w.change(rows) != rows
    requires forall tables :: s.waiting[0](tables) == Some(tables)
    ensures !InOrder(start, Step(Step(Step(s, Tick), Tick), End))
  {
    hide RowsOf, Whole, Serial, EnsureTable, EnsureAll;
    PendingOne(Serial(start, s.log), s, w);
    WholeRows(Serial(start, s.log), w);
    LateTail(start, Step(s, Tick), w);
  }

  lemma LateCallLost<R(!new)>(start: Tables<R>, s: State<R>, w: Write<R>, keep: Work<R>)
    requires Scheduled(s) && InOrder(start, s) && NoneBehind(s) && Busy(s)
    requires var rows := RowsOf(Serial(start, s.log + Stores(s.stores)), w.table); w.change(rows) != rows
    requires forall tables :: keep(tables) == Some(tables)
    ensures !InOrder(start, Run(Step(WithNext(s, keep), Call(w)), TooLate(s)))
  {
    hide Run, RowsOf, Serial, InOrder, Step;
    var s' := WithNext(s, keep);
    SameTables(start, s, s');
    if s.running.Some? {
      assert s.log + Stores(s.stores) == s.log && TooLate(s) == [Tick] + [End];
      CallWhileRunningLost(start, s', w);
    } else {
      assert TooLate(s) == Ticks(|s.stores|) + [Tick] + [Tick] + [End];
      CallWhileDueLost(start, s', w);
    }
  }

  lemma PendingOne<R(!new)>(before: Tables<R>, s: State<R>, w: Write<R>)
    requires s.stores == [] && s.behind == [w] && s.tables == EnsureAll(before, s.stores + s.behind)
    ensures s.tables == EnsureTable(before, w.table)
  {
    assert s.stores + s.behind == [w] && [w][1..] == [];
    hide EnsureTable;
  }

  // ---------- How it is lost ----------

  function Called<R>(events: seq<Event<R>>): seq<Write<R>> {
    if events == [] then []
    else
      var e := events[|events| - 1];
      Called(events[..|events| - 1]) + (if e.Call? then [e.write] else [])
  }

  /** While a work runs, the jobs that come store the writes that are called, in order. */
  lemma {:induction false} RunBusy<R(!new)>(s: State<R>, events: seq<Event<R>>)
    requires s.running.Some? && Scheduled(s) && forall e <- events :: !e.End?
    ensures var t := Run(s, events);
            && t.running == s.running && Scheduled(t)
            && t.log + Stores(t.stores) == s.log + Stores(s.stores + Called(events))
  {
    if events == [] {
      assert s.stores + [] == s.stores;
    } else {
      var front, e := events[..|events| - 1], events[|events| - 1];
      RunBusy(s, front);
      var t := Run(s, front);
      hide Run, Scheduled;
      StepScheduled(t, e);
      StepBusy(t, e);
      assert Called(events) == Called(front) + CalledBy(e);
      assert s.stores + Called(events) == s.stores + Called(front) + CalledBy(e);
      StoresAppend(s.stores + Called(front), CalledBy(e));
    }
  }

  function CalledBy<R>(e: Event<R>): seq<Write<R>> { if e.Call? then [e.write] else [] }

  lemma StoresAppend<R(!new)>(a: seq<Write<R>>, b: seq<Write<R>>)
    ensures Stores(a + b) == Stores(a) + Stores(b)
  {
  }

  lemma StepBusy<R(!new)>(s: State<R>, e: Event<R>)
    requires s.running.Some? && Scheduled(s) && !e.End?
    ensures var t := Step(s, e);
            t.running == s.running && t.log + Stores(t.stores) == s.log + Stores(s.stores) + Stores(CalledBy(e))
  {
    hide EnsureTable, StoreRows, Stores, StoreFirst;
    var all := s.log + Stores(s.stores);
    assert all + Stores(CalledBy(e)) == all || e.Call? by { NoStores(CalledBy(e)); }
    match e
    case Submit(work) =>
    case Call(w) =>
      StoresAppend(s.stores, [w]);
      Associate(s.log, Stores(s.stores), Stores([w]));
    case Tick =>
      if s.stores != [] {
        StoreBusy(s);
      }
    case Settle =>
  }

  lemma NoStores<R(!new)>(writes: seq<Write<R>>)
    ensures writes == [] ==> Stores(writes) == []
  {
  }

  lemma StoreBusy<R(!new)>(s: State<R>)
    requires s.stores != []
    ensures var t := StoreFirst(s); t.running == s.running && t.log + Stores(t.stores) == s.log + Stores(s.stores)
  {
    hide StoreRows, Stores;
    StoresFirst(s.stores);
    Associate(s.log, [Written(s.stores[0])], Stores(s.stores[1..]));
  }

  /** A write called while a work runs that then succeeds leaves no trace in the tables after the work has ended:
      they are the same with it and without it, whatever is submitted, called or stored in between, though the
      write is stored as soon as the jobs before it have run. */
  lemma WriteIsLost<R(!new)>(s: State<R>, w: Write<R>, between: seq<Event<R>>)
    requires Scheduled(s) && forall e <- between :: !e.End?
    requires s.running.Some? && s.running.value.work(s.running.value.copy).Some?
    ensures var v := Run(Step(s, Call(w)), between);
            var t, u := Step(v, End), Step(Run(s, between), End);
            && t.tables == u.tables == s.running.value.work(s.running.value.copy).value
            && (|v.log| > |s.log| + |s.stores| ==> v.log[|s.log| + |s.stores|] == Written(w))
  {
    StepScheduled(s, Call(w));
    var c := Step(s, Call(w));
    RunBusy(c, between);
    RunBusy(s, between);
    hide Run;
    var v := Run(c, between);
    if |v.log| > |s.log| + |s.stores| {
      var k := |s.log| + |s.stores|;
      assert c.stores == s.stores + [w] && c.log == s.log;
      assert (v.log + Stores(v.stores))[k] == v.log[k];
      assert (s.log + Stores(c.stores + Called(between)))[k] == Written(w);
    }
  }

  lemma {:induction false} BusyInOrder<R(!new)>(start: Tables<R>, s: State<R>, events: seq<Event<R>>)
    requires s.running.Some? && Scheduled(s) && InOrder(start, s) && forall e <- events :: !e.End?
    ensures InOrder(start, Run(s, events))
  {
    if events != [] {
      hide InOrder, Scheduled, Step;
      var front, e := events[..|events| - 1], events[|events| - 1];
      BusyInOrder(start, s, front);
      RunBusy(s, front);
      BusyStep(start, Run(s, front), e);
    }
  }

  lemma BusyStep<R(!new)>(start: Tables<R>, s: State<R>, e: Event<R>)
    requires s.running.Some? && Scheduled(s) && InOrder(start, s) && !e.End?
    ensures InOrder(start, Step(s, e))
  {
    hide InOrder;
    match e
    case Submit(work) => SameTables(start, s, Step(s, e));
    case Call(w) => CallInOrder(start, s, w);
    case Tick => TickInOrder(start, s);
    case Settle => SameTables(start, s, Step(s, e));
  }

  /** But a work that throws takes no write with it: whatever is called while it runs, the tables at its end are what
      there was before and the writes stored since, in the order of their calls, with those still to store to come. */
  lemma ThrowLosesNothing<R(!new)>(start: Tables<R>, events: seq<Event<R>>, between: seq<Event<R>>)
    requires CallsWhileFree(start, events) && forall e <- between :: !e.End?
    requires var s := Run(Idle(start), events);
             s.running.Some? && s.running.value.work(s.running.value.copy).None?
    ensures var s := Run(Idle(start), events);
            var v := Run(s, between);
            var t := Step(v, End);
            && v.log + Stores(v.stores) == s.log + Stores(s.stores + Called(between))
            && t.running.None? && t.stores == v.stores && t.tables == EnsureAll(Serial(start, v.log), v.stores)
  {
    hide Run, InOrder, NoneBehind, Serial, EnsureAll, Stores, Called;
    IdleInOrder(start);
    RunInOrder(start, Idle(start), events);
    var s := Run(Idle(start), events);
    RunBusy(s, between);
    BusyInOrder(start, s, between);
    OrderedTables(start, Run(s, between));
  }

  lemma OrderedTables<R(!new)>(start: Tables<R>, s: State<R>)
    requires InOrder(start, s) && Scheduled(s) && s.running.Some?
    ensures s.tables == EnsureAll(Serial(start, s.log), s.stores)
  {
    assert s.stores + [] == s.stores;
    hide Serial, EnsureAll;
  }

  /** The other way to come too late: called while the work runs and stored after it has ended. If the work leaves no
      such table, the store finds none and does nothing; otherwise it is in effect. */
  lemma StoreAfterEnd<R(!new)>(s: State<R>, w: Write<R>)
    requires Scheduled(s) && s.running.Some? && s.stores == []
    requires s.running.value.work(s.running.value.copy).Some?
    ensures var result := s.running.value.work(s.running.value.copy).value;
            Step(Step(Step(s, Call(w)), End), Tick).tables ==
            if w.table in result.table then Whole(result, w) else result
  {
  }

  /** `withTransaction` is called and not awaited, then a direct write: nothing runs at the call, and yet it is lost. */
  lemma UnawaitedTransactionLoses<R(!new)>(start: Tables<R>, work: Work<R>, w: Write<R>)
    requires work(EnsureTable(start, w.table)).Some?
    ensures Run(Idle(start), [Submit(work)]).running.None?
    ensures var s := Run(Idle(start), [Submit(work)] + [Call(w)] + [Tick] + [Tick] + [End]);
            && s.log == [Written(w), Ended(work)] && s.stores == [] && s.waiting == []
            && s.tables == work(EnsureTable(start, w.table)).value
  {
    hide EnsureTable, StoreRows;
    var none: seq<Event<R>> := [];
    assert Run(Idle(start), none) == Idle(start) && none + [Submit(work)] == [Submit(work)];
    RunAppend(Idle(start), none, Submit(work));
    RunAppend(Idle(start), [Submit(work)], Call(w));
    RunAppend(Idle(start), [Submit(work)] + [Call(w)], Tick);
    RunAppend(Idle(start), [Submit(work)] + [Call(w)] + [Tick], Tick);
    RunAppend(Idle(start), [Submit(work)] + [Call(w)] + [Tick] + [Tick], End);
    hide Run;
  }
}
