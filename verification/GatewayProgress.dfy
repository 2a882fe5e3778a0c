// What events mean for a bridge over whole runs: which ones end it, which ones move it on, and
// that an answered call gets through.
module GatewayProgress {
  import opened Options
  import opened GatewayModel
  import opened GatewayRuns

  // ----- the meaning of events -----

  // The call an event is about.
  function Subject(e: Event): CallId {
    if e.UpdateCall? then TG(e.id) else SIP(e.id)
  }

  // The side of x says that x is over.
  predicate ReportsEnd(e: Event, x: CallId) {
    || (e.UpdateCall? && x == TG(e.id) && (e.tgState == Discarded || e.tgState == Error))
    || (e.CallStateUpdate? && x == SIP(e.id) && e.sipState == Disconnected)
  }

  // What a bridge waits for.
  predicate IsAwaited(phase: Phase, e: Event) {
    || (phase == CameFromTg(TgSipWaitMedia) && e.CallMediaStateUpdate? && e.hasMedia)
    || (phase == CameFromTg(TgWaitTg) && e.UpdateCall? && e.tgState == Ready)
    || (phase == CameFromSip(SipWaitConfirm) && e.CallStateUpdate? && e.sipState == Early)
    || (phase == CameFromSip(SipWaitTg) && e.UpdateCall? && e.tgState == Ready)
    || (phase == CameFromSip(SipWaitMedia) && e.CallMediaStateUpdate? && e.hasMedia)
  }

  function Following(phase: Phase): Phase {
    match phase
    case CameFromTg(TgSipWaitMedia) => CameFromTg(TgWaitTg)
    case CameFromTg(TgWaitTg) => CameFromTg(TgWaitDtmf)
    case CameFromSip(SipWaitConfirm) => CameFromSip(SipWaitTg)
    case CameFromSip(SipWaitTg) => CameFromSip(SipWaitMedia)
    case CameFromSip(SipWaitMedia) => CameFromSip(SipWaitDtmf)
    case _ => phase
  }

  predicate Opens(e: Event, a: Answers) {
    e.IncomingCall? || (e.UpdateCall? && e.incoming && e.tgState == Pending && a.callbackUriSet)
  }

  // ----- one bridge, one event -----

  predicate IsReal(e: Event) {
    if e.UpdateCall? then e.id != NO_TG else e.id != NO_SIP
  }

  // The bridge of an event ends, moves on, or nothing changes at all.
  lemma ReactTable(w: World, e: Event, a: Answers)
    requires IsSound(w.c, w.s.errors) && Matches(w.c, e) && IsReal(e)
    ensures var w' := React(w, e, a);
      if ReportsEnd(e, Subject(e)) then w'.c.phase == X && w'.log.ended == w.log.ended + multiset{Subject(e)}
      else if IsAwaited(w.c.phase, e) then w'.c.phase == Following(w.c.phase) && w'.log.ended == w.log.ended
      else w' == w
  {
    match e
    case UpdateCall(_, _, _, _) =>
      if e.tgState == Ready { assert React(w, e, a).log == w.log; }
    case IncomingCall(_, _) =>
    case CallStateUpdate(_, _) =>
      if w.c.phase == CameFromSip(SipWaitConfirm) && e.sipState == Early { DialKeepsEnded(w, a); }
    case CallMediaStateUpdate(_, _) =>
  }

  lemma DialKeepsEnded(w: World, a: Answers)
    ensures DialTg(w, a).log.ended == w.log.ended && DialTg(w, a).c.id == w.c.id
    ensures DialTg(w, a).c == w.c.(tg := DialTg(w, a).c.tg)
  {
  }

  lemma NewBridgeTable(w: World, e: Event, a: Answers)
    requires IsNew(w.c)
    ensures var w' := React(w, e, a);
      && w'.log.ended == w.log.ended
      && (if Opens(e, a) then w'.c.phase == (if e.UpdateCall? then CameFromTg(TgSipWaitMedia) else CameFromSip(SipWaitConfirm))
          else w'.c.phase == X)
  {
    if e.IncomingCall? { AcceptIs(TakeSip(w, e.id), e.extension, a); }
    hide AcceptIncomingSip;
  }

  // Errors are filed under the bridge that met them.
  ghost predicate OwnErrors(w: World, w': World) {
    forall x :: x in w'.s.errors ==> x in w.s.errors || x.contextId == w.c.id
  }

  lemma ReactFilesOwn(w: World, e: Event, a: Answers)
    ensures OwnErrors(w, React(w, e, a)) && React(w, e, a).c.id == w.c.id
  {
    match e
    case UpdateCall(_, _, _, _) =>
    case IncomingCall(_, _) => AcceptFilesOwn(TakeSip(w, e.id), e.extension, a);
    case CallStateUpdate(_, _) =>
      DialFilesOwn(w, a);
      hide DialTg;
    case CallMediaStateUpdate(_, _) =>
  }

  lemma AcceptFilesOwn(w: World, ext: string, a: Answers)
    ensures OwnErrors(w, AcceptIncomingSip(w, ext, a))
  {
    hide IsDigits, Number;
  }

  lemma DialFilesOwn(w: World, a: Answers)
    ensures OwnErrors(w, DialTg(w, a)) && DialTg(w, a).c.id == w.c.id
  {
  }

  // ----- one bridge among all -----

  function ContextOf(st: State, id: nat): Option<Context> {
    var i := FindContext(st.bridges, id);
    if i < |st.bridges| then Some(st.bridges[i]) else None
  }

  lemma ContextAt(st: State, i: nat)
    requires IdsDiffer(st) && i < |st.bridges|
    ensures ContextOf(st, st.bridges[i].id) == Some(st.bridges[i])
  {
  }

  lemma NoContext(st: State, id: nat)
    requires forall k :: 0 <= k < |st.bridges| ==> st.bridges[k].id != id
    ensures ContextOf(st, id) == None
  {
  }

  // Deleting a bridge, and putting another of its id in its place.
  lemma WithoutOne(st: State, i: nat, id: nat)
    requires IdsDiffer(st) && i < |st.bridges|
    ensures var st' := st.(bridges := st.bridges[..i] + st.bridges[i + 1..]);
      ContextOf(st', id) == if id == st.bridges[i].id then None else ContextOf(st, id)
  {
    hide ContextOf, FindContext;
    var st' := st.(bridges := st.bridges[..i] + st.bridges[i + 1..]);
    assert forall k :: 0 <= k < |st'.bridges| ==> st'.bridges[k] == st.bridges[if k < i then k else k + 1];
    if id != st.bridges[i].id && exists k :: 0 <= k < |st.bridges| && st.bridges[k].id == id {
      var k :| 0 <= k < |st.bridges| && st.bridges[k].id == id;
      ContextAt(st, k);
      ContextAt(st', if k < i then k else k - 1);
    } else {
      NoContext(st', id);
      if id != st.bridges[i].id { NoContext(st, id); }
    }
  }

  lemma WithOne(st: State, i: nat, c: Context, id: nat)
    requires IdsDiffer(st) && i < |st.bridges| && c.id == st.bridges[i].id
    ensures var st' := st.(bridges := st.bridges[i := c]);
      ContextOf(st', id) == if id == c.id then Some(c) else ContextOf(st, id)
  {
    hide ContextOf, FindContext;
    var st' := st.(bridges := st.bridges[i := c]);
    if k :| 0 <= k < |st.bridges| && st.bridges[k].id == id {
      ContextAt(st, k);
      ContextAt(st', k);
    } else {
      NoContext(st, id);
      NoContext(st', id);
    }
  }

  lemma StoreContext(st: State, i: nat, w': World, id: nat)
    requires IdsDiffer(st) && i < |st.bridges| && w'.c.id == st.bridges[i].id
    ensures ContextOf(Store(st, i, w'), id) ==
      if id != st.bridges[i].id then ContextOf(st, id) else if w'.c.phase == X then None else Some(w'.c)
  {
    hide IdsDiffer, FindContext;
    WithoutOne(st, i, id);
    WithOne(st, i, w'.c, id);
  }

  // A bridge is the one its event finds.
  lemma FindsIt(st: State, e: Event, c: Context)
    requires Inv(st) && IsReal(e) && ContextOf(st, c.id) == Some(c)
    ensures var i := Find(st.bridges, e);
      Matches(c, e) <==> i < |st.bridges| && st.bridges[i] == c
  {
    var i, k := Find(st.bridges, e), FindContext(st.bridges, c.id);
    if Matches(c, e) && i < k {
      NoSharedIds(st, i, k);
    }
  }

  // What handling an event makes of bridge id.
  lemma HandleContext(st: State, e: Event, a: Answers, id: nat)
    requires Inv(st) && IsFresh(st, e, a)
    ensures var i, st1 := Find(st.bridges, e), SearchCall(st, e);
      var b := st1.bridges[i];
      var w' := React(World(b, st.s, st.log), e, a);
      ContextOf(Handle(st, e, a), id) ==
        if id != b.id then ContextOf(st, id) else if w'.c.phase == X then None else Some(w'.c)
  {
    hide React, Inv, ContextOf, Store, IsSound, IsFresh, IdsDiffer, Matches;
    SearchIds(st, e, a);
    var i, st1 := Find(st.bridges, e), SearchCall(st, e);
    ReactFilesOwn(At(st1, i), e, a);
    StoreContext(st1, i, React(At(st1, i), e, a), id);
    if i == |st.bridges| {
      NewContextElsewhere(st, id);
    }
  }

  lemma SearchIds(st: State, e: Event, a: Answers)
    requires Inv(st) && IsFresh(st, e, a)
    ensures IdsDiffer(SearchCall(st, e)) && Find(st.bridges, e) < |SearchCall(st, e).bridges|
  {
    hide Inv, IsSound, IsSettled, IsFresh;
    SearchFinds(st, e, a);
  }

  lemma NewContextElsewhere(st: State, id: nat)
    ensures var st1 := st.(bridges := st.bridges + [NewContext(st.counter + 1)], counter := st.counter + 1);
      id != st.counter + 1 ==> ContextOf(st1, id) == ContextOf(st, id)
  {
    var was := st.bridges;
    var i, j := FindContext(was, id), FindContext(was + [NewContext(st.counter + 1)], id);
    if id != st.counter + 1 {
      assert forall k :: 0 <= k < |was| ==> (was + [NewContext(st.counter + 1)])[k] == was[k];
      if i < |was| { assert j == i; } else { assert j >= |was|; }
    }
  }

  // The bridge ends in this step: its event reports one of its calls over, or an error it met is
  // worked off.
  predicate Ends(st: State, step: Step, c: Context) {
    match step
    case External(e, _) => Matches(c, e) && ReportsEnd(e, Subject(e))
    case Internal => st.s.errors != [] && st.s.errors[0].contextId == c.id
  }

  predicate MovesOn(step: Step, c: Context) {
    step.External? && Matches(c, step.e) && IsAwaited(c.phase, step.e)
  }

  ghost predicate IsFreshStep(st: State, step: Step) {
    step.External? ==> IsFresh(st, step.e, step.a)
  }

  // Of a bridge, every step makes nothing if it ends, the next phase if it is what the bridge
  // waits for, and the same bridge otherwise.
  lemma BridgeMovesExactly(st: State, step: Step, c: Context)
    requires Inv(st) && IsFreshStep(st, step) && ContextOf(st, c.id) == Some(c)
    ensures var now := ContextOf(Next(st, step), c.id);
      if Ends(st, step, c) then now == None
      else if MovesOn(step, c) then now.Some? && now.value.phase == Following(c.phase)
      else now == Some(c)
  {
    hide ContextOf, React;
    match step
    case External(e, a) =>
      HandleContext(st, e, a, c.id);
      FindsIt(st, e, c);
      SearchFinds(st, e, a);
      NewIdDiffers(st, e, c);
      if Matches(c, e) {
        SoundAt(st, c);
        ReactTable(World(c, st.s, st.log), e, a);
        hide Inv, IsSound;
      }
    case Internal => InternalContext(st, c);
  }

  lemma SoundAt(st: State, c: Context)
    requires Inv(st) && ContextOf(st, c.id) == Some(c)
    ensures IsSound(c, st.s.errors)
  {
    hide IsSound, IsSettled;
  }

  // If the event is not for c, it finds or makes a bridge of another id.
  lemma NewIdDiffers(st: State, e: Event, c: Context)
    requires Inv(st) && IsReal(e) && ContextOf(st, c.id) == Some(c)
    ensures var i, st1 := Find(st.bridges, e), SearchCall(st, e);
      c.id <= st.counter && (st1.bridges[i].id == c.id <==> Matches(c, e))
  {
    FindsIt(st, e, c);
    hide Holders, IsSettled, IsSound, Find;
  }

  lemma InternalContext(st: State, c: Context)
    requires Inv(st) && ContextOf(st, c.id) == Some(c)
    ensures ContextOf(HandleInternal(st), c.id) == if Ends(st, Internal, c) then None else Some(c)
  {
    hide Holders, IsSettled;
    SoundAt(st, c);
    if st.s.errors != [] {
      var e, st1 := st.s.errors[0], st.(s := st.s.(errors := st.s.errors[1..]));
      var i := FindContext(st1.bridges, e.contextId);
      if i < |st1.bridges| {
        assert IsSound(st.bridges[i], st.s.errors);
        StoreContext(st1, i, OnInternalError(At(st1, i), e), c.id);
        hide FindContext, Store, CleanUp;
      }
    }
  }

  // ----- what ends -----

  // Which ids a step puts into the log of those reported over.
  lemma StepEnds(st: State, step: Step, x: CallId)
    requires Inv(st) && IsFreshStep(st, step)
    ensures Next(st, step).log.ended[x] == st.log.ended[x]
      + if step.External? && ReportsEnd(step.e, x) && Holders(st.bridges, x) > 0 then 1 else 0
  {
    hide React, ReportsEnd, Inv, OnInternalError;
    match step
    case External(e, a) =>
      SearchFinds(st, e, a);
      var i, st1 := Find(st.bridges, e), SearchCall(st, e);
      SubjectHeld(st, e);
      if i < |st.bridges| {
        ReactTable(At(st1, i), e, a) by { FindIsSound(st, i); }
      } else {
        NewBridgeTable(At(st1, i), e, a);
      }
      ReportsSubject(e, x);
    case Internal =>
      InternalEndsNothing(st);
  }

  lemma FindIsSound(st: State, i: nat)
    requires Inv(st) && i < |st.bridges|
    ensures IsSound(st.bridges[i], st.s.errors)
  {
    hide IsSound, IsSettled;
  }

  lemma ReportsSubject(e: Event, x: CallId)
    ensures ReportsEnd(e, x) ==> x == Subject(e)
  {
  }

  lemma SubjectHeld(st: State, e: Event)
    requires IsReal(e)
    ensures Holders(st.bridges, Subject(e)) > 0 <==> Find(st.bridges, e) < |st.bridges|
  {
    var i := Find(st.bridges, e);
    if i < |st.bridges| {
      HoldersAt(st.bridges, i, st.bridges[i], Subject(e));
      assert Held(st.bridges[i])[Subject(e)] > 0;
    } else {
      NotHeld(st.bridges, e);
    }
  }

  lemma InternalEndsNothing(st: State)
    ensures HandleInternal(st).log.ended == st.log.ended
  {
    hide FindContext;
  }

  // How often a run reports an id over that a bridge holds.
  function Reports(st: State, run: seq<Step>, x: CallId): nat {
    if run == [] then 0
    else
      var n := |run| - 1;
      var step := run[n];
      Reports(st, run[..n], x)
      + if step.External? && ReportsEnd(step.e, x) && Holders(After(st, run[..n]).bridges, x) > 0 then 1 else 0
  }

  // Over a run, the ids logged as ended are just those that an event reported over while a
  // bridge held them, as often as that happened.
  lemma {:induction false} EndedAsReported(usernames: map<string, int>, phones: map<string, int>, now: int,
      run: seq<Step>, x: CallId)
    requires IsFreshRun(Start(usernames, phones, now), run)
    ensures After(Start(usernames, phones, now), run).log.ended[x] == Reports(Start(usernames, phones, now), run, x)
  {
    hide Next, ReportsEnd, Inv, IsFresh, Holders;
    var st := Start(usernames, phones, now);
    if run != [] {
      var n := |run| - 1;
      FreshBefore(st, run);
      EndedAsReported(usernames, phones, now, run[..n], x);
      RunKeepsInv(usernames, phones, now, run[..n]);
      StepEnds(After(st, run[..n]), run[n], x);
    }
  }

  lemma FreshBefore(st: State, run: seq<Step>)
    requires IsFreshRun(st, run) && run != []
    ensures var n := |run| - 1; IsFreshRun(st, run[..n]) && IsFreshStep(After(st, run[..n]), run[n])
  {
    hide IsFresh, After;
    var n := |run| - 1;
    assert forall k :: 0 <= k < n ==> run[..n][..k] == run[..k];
  }

  // An id reported over is held by nobody from then on.
  lemma ReportedIsLetGo(st: State, e: Event, a: Answers, x: CallId)
    requires Inv(st) && IsFresh(st, e, a) && ReportsEnd(e, x)
    ensures Holders(Handle(st, e, a).bridges, x) == 0
  {
    hide React, Inv, Holders;
    SearchFinds(st, e, a);
    var i, st1 := Find(st.bridges, e), SearchCall(st, e);
    SearchHolders(st, e, x);
    SubjectHeld(st, e);
    assert IsSettled(st.bridges, st.log, x) by { SettledAt(st, x); }
    HoldersStore(st1, i, React(At(st1, i), e, a), x);
    if i < |st.bridges| {
      FindIsSound(st, i);
      ReactTable(At(st1, i), e, a);
      assert Held(st.bridges[i])[x] > 0;
    } else {
      NewBridgeTable(At(st1, i), e, a);
    }
  }

  lemma SettledAt(st: State, x: CallId)
    requires Inv(st)
    ensures IsSettled(st.bridges, st.log, x)
  {
    hide IsSettled, IsSound;
  }

  // ----- what starts -----

  // An id that no bridge holds gets a bridge just if its event opens one.
  lemma BridgeStartsExactly(st: State, e: Event, a: Answers)
    requires Inv(st) && IsFresh(st, e, a) && Find(st.bridges, e) == |st.bridges|
    ensures var now := ContextOf(Handle(st, e, a), st.counter + 1);
      if Opens(e, a) then now.Some? && now.value.phase ==
        (if e.UpdateCall? then CameFromTg(TgSipWaitMedia) else CameFromSip(SipWaitConfirm))
      else now == None
  {
    hide React, Inv, ContextOf;
    HandleContext(st, e, a, st.counter + 1);
    NewBridgeTable(World(NewContext(st.counter + 1), st.s, st.log), e, a);
  }

  // ----- a call that is answered at every turn gets through -----

  ghost predicate NoErrors(st: State, id: nat) {
    forall x :: x in st.s.errors ==> x.contextId != id
  }

  ghost predicate ErrorsKnown(st: State) {
    forall x :: x in st.s.errors ==> x.contextId <= st.counter
  }

  // The step is for others, or is not what the bridge waits for and not the end of its calls.
  predicate IsIdle(step: Step, c: Context) {
    step.External? && Matches(c, step.e) ==> !ReportsEnd(step.e, Subject(step.e)) && !IsAwaited(c.phase, step.e)
  }

  lemma HandleErrors(st: State, e: Event, a: Answers)
    requires Inv(st) && IsFresh(st, e, a)
    ensures var st1 := SearchCall(st, e);
      forall x :: x in Handle(st, e, a).s.errors ==>
        x in st.s.errors || x.contextId == st1.bridges[Find(st.bridges, e)].id
  {
    hide React, Inv;
    SearchFinds(st, e, a);
    ReactFilesOwn(At(SearchCall(st, e), Find(st.bridges, e)), e, a);
  }

  lemma InternalErrors(st: State)
    ensures forall x :: x in HandleInternal(st).s.errors ==> x in st.s.errors
    ensures HandleInternal(st).counter == st.counter
  {
    hide FindContext;
  }

  lemma KnownKept(st: State, step: Step)
    requires Inv(st) && IsFreshStep(st, step) && ErrorsKnown(st)
    ensures ErrorsKnown(Next(st, step)) && Next(st, step).counter >= st.counter
  {
    hide Inv, Handle, HandleInternal;
    match step
    case External(e, a) =>
      HandleErrors(st, e, a);
      HandleCounts(st, e, a);
    case Internal => InternalErrors(st);
  }

  lemma HandleCounts(st: State, e: Event, a: Answers)
    requires Inv(st) && IsFresh(st, e, a)
    ensures var i, st1 := Find(st.bridges, e), SearchCall(st, e);
      Handle(st, e, a).counter == st1.counter >= st.counter && st1.bridges[i].id <= st1.counter
  {
    hide React, IsSound, IsSettled;
    SearchFinds(st, e, a);
  }

  lemma {:induction false} ErrorsAreKnown(usernames: map<string, int>, phones: map<string, int>, now: int, run: seq<Step>)
    requires IsFreshRun(Start(usernames, phones, now), run)
    ensures ErrorsKnown(After(Start(usernames, phones, now), run))
  {
    hide Next, Inv, IsFresh, ErrorsKnown;
    var st := Start(usernames, phones, now);
    if run == [] {
      NoneAtStart(usernames, phones, now);
    } else {
      var n := |run| - 1;
      FreshBefore(st, run);
      ErrorsAreKnown(usernames, phones, now, run[..n]);
      RunKeepsInv(usernames, phones, now, run[..n]);
      KnownKept(After(st, run[..n]), run[n]);
    }
  }

  lemma NoneAtStart(usernames: map<string, int>, phones: map<string, int>, now: int)
    ensures ErrorsKnown(Start(usernames, phones, now))
  {
  }

  ghost predicate IsAt(st: State, c: Context) {
    Inv(st) && ContextOf(st, c.id) == Some(c) && NoErrors(st, c.id)
  }

  lemma StaysPut(st: State, step: Step, c: Context)
    requires IsAt(st, c) && IsFreshStep(st, step) && IsIdle(step, c)
    ensures IsAt(Next(st, step), c)
  {
    hide Inv, Handle, HandleInternal, ContextOf, ReportsEnd, IsAwaited;
    BridgeMovesExactly(st, step, c);
    match step
    case External(e, a) =>
      HandleKeepsInv(st, e, a);
      NewIdDiffers(st, e, c);
      if Matches(c, e) { IdleErrors(st, e, a, c); } else { HandleErrors(st, e, a); }
    case Internal =>
      HandleInternalKeepsInv(st);
      InternalErrors(st);
  }

  lemma IdleErrors(st: State, e: Event, a: Answers, c: Context)
    requires Inv(st) && ContextOf(st, c.id) == Some(c) && IsFresh(st, e, a) && Matches(c, e)
    requires !ReportsEnd(e, Subject(e)) && !IsAwaited(c.phase, e)
    ensures Handle(st, e, a).s.errors == st.s.errors
  {
    hide React, ContextOf, ReportsEnd, IsAwaited, IsSettled, Holders;
    FindsIt(st, e, c);
    SoundAt(st, c);
    ReactTable(World(c, st.s, st.log), e, a);
  }

  lemma {:induction false} StaysPutAlong(st: State, run: seq<Step>, c: Context)
    requires IsAt(st, c) && IsFreshRun(st, run) && forall k :: 0 <= k < |run| ==> IsIdle(run[k], c)
    ensures IsAt(After(st, run), c)
  {
    hide Next, IsAt, IsFresh, IsIdle;
    if run != [] {
      var n := |run| - 1;
      FreshBefore(st, run);
      StaysPutAlong(st, run[..n], c);
      StaysPut(After(st, run[..n]), run[n], c);
    }
  }

  // The bridge moves on without an error.
  lemma MovesTo(st: State, e: Event, a: Answers, c: Context, c': Context)
    requires IsAt(st, c) && IsFresh(st, e, a) && Matches(c, e)
    requires var w' := React(World(c, st.s, st.log), e, a);
      w'.c == c' && c'.id == c.id && c'.phase != X && w'.s.errors == st.s.errors
    ensures IsAt(Handle(st, e, a), c')
  {
    hide React, ContextOf, Inv;
    HandleKeepsInv(st, e, a);
    HandleContext(st, e, a, c.id);
    FindsIt(st, e, c);
  }

  lemma StartsAs(st: State, e: Event, a: Answers, c: Context)
    requires Inv(st) && ErrorsKnown(st) && IsFresh(st, e, a) && Find(st.bridges, e) == |st.bridges|
    requires var w' := React(World(NewContext(st.counter + 1), st.s, st.log), e, a);
      w'.c == c && c.id == st.counter + 1 && c.phase != X && w'.s.errors == st.s.errors
    ensures IsAt(Handle(st, e, a), c)
  {
    hide React, ContextOf, Inv;
    HandleKeepsInv(st, e, a);
    HandleContext(st, e, a, c.id);
  }

  lemma {:induction false} AfterJoin(st: State, a: seq<Step>, b: seq<Step>)
    ensures After(st, a + b) == After(After(st, a), b)
    decreases |b|
  {
    hide Next;
    if b == [] {
      assert a + b == a;
    } else {
      var n := |b| - 1;
      assert (a + b)[..|a| + n] == a + b[..n];
      AfterJoin(st, a, b[..n]);
    }
  }

  lemma FreshJoin(st: State, a: seq<Step>, b: seq<Step>)
    requires IsFreshRun(st, a + b)
    ensures IsFreshRun(st, a) && IsFreshRun(After(st, a), b)
  {
    hide Next, IsFresh, After;
    assert forall k :: 0 <= k < |a| ==> (a + b)[..k] == a[..k];
    forall k | 0 <= k < |b| && b[k].External?
      ensures IsFresh(After(After(st, a), b[..k]), b[k].e, b[k].a)
    {
      AfterJoin(st, a, b[..k]);
      assert (a + b)[..|a| + k] == a + b[..k] && (a + b)[|a| + k] == b[k];
    }
  }

  // One awaited event, and idle steps behind it.
  lemma OneTurn(st: State, e: Event, a: Answers, idle: seq<Step>, c: Context)
    requires IsFreshRun(st, [External(e, a)] + idle) && IsAt(Handle(st, e, a), c)
    requires forall k :: 0 <= k < |idle| ==> IsIdle(idle[k], c)
    ensures IsAt(After(st, [External(e, a)] + idle), c)
  {
    hide Handle, IsFresh, IsAt, IsIdle, IsFreshRun;
    var first := [External(e, a)];
    FreshJoin(st, first, idle);
    AfterJoin(st, first, idle);
    assert first[..0] == [] && After(st, first) == Handle(st, e, a);
    StaysPutAlong(Handle(st, e, a), idle, c);
  }

  lemma FirstIsFresh(st: State, e: Event, a: Answers, rest: seq<Step>)
    requires IsFreshRun(st, [External(e, a)] + rest)
    ensures IsFresh(st, e, a)
  {
    hide IsFresh;
    var run := [External(e, a)] + rest;
    assert run[..0] == [] && After(st, run[..0]) == st && run[0] == External(e, a);
  }

  // An incoming Telegram call whose SIP side gets media, and which is then ready, ends up with
  // both calls and a controller, waiting for digits; whatever happens to others in between.
  lemma TelegramCallConnects(st: State, tg: int, sip: int, user: int, user': int, again: bool,
      a1: Answers, idle1: seq<Step>, a2: Answers, idle2: seq<Step>, a3: Answers)
    requires Inv(st) && ErrorsKnown(st) && forall k :: 0 <= k < |st.bridges| ==> st.bridges[k].tg != tg
    requires a1.callbackUriSet && a1.sipDial == Some(sip) && a2.tgAccept && a3.bridgeAudio
    requires var c := Context(st.counter + 1, CameFromTg(TgSipWaitMedia), tg, sip, false, "", "", user, 0);
      && (forall k :: 0 <= k < |idle1| ==> IsIdle(idle1[k], c))
      && (forall k :: 0 <= k < |idle2| ==> IsIdle(idle2[k], c.(phase := CameFromTg(TgWaitTg))))
    requires IsFreshRun(st, [External(UpdateCall(tg, true, Pending, user), a1)] + idle1
      + ([External(CallMediaStateUpdate(sip, true), a2)] + idle2) + [External(UpdateCall(tg, again, Ready, user'), a3)])
    ensures var st' := After(st, [External(UpdateCall(tg, true, Pending, user), a1)] + idle1
        + ([External(CallMediaStateUpdate(sip, true), a2)] + idle2) + [External(UpdateCall(tg, again, Ready, user'), a3)]);
      ContextOf(st', st.counter + 1)
        == Some(Context(st.counter + 1, CameFromTg(TgWaitDtmf), tg, sip, true, "", "", user, 0))
  {
    hide Inv, IsFresh, IsIdle, ContextOf, After, Find, Handle, NoErrors;
    var e1, e2, e3 := UpdateCall(tg, true, Pending, user), CallMediaStateUpdate(sip, true), UpdateCall(tg, again, Ready, user');
    var c := Context(st.counter + 1, CameFromTg(TgSipWaitMedia), tg, sip, false, "", "", user, 0);
    var run1, run2, run3 := [External(e1, a1)] + idle1, [External(e2, a2)] + idle2, [External(e3, a3)] + [];
    assert run3 == [External(e3, a3)];
    FreshJoin(st, run1 + run2, run3);
    FreshJoin(st, run1, run2);
    AfterJoin(st, run1, run2);
    AfterJoin(st, run1 + run2, run3);
    var st1 := After(st, run1);
    var st2 := After(st1, run2);
    FirstIsFresh(st, e1, a1, idle1);
    NoneFound(st, e1);
    StartsAs(st, e1, a1, c);
    OneTurn(st, e1, a1, idle1, c);
    FirstIsFresh(st1, e2, a2, idle2);
    MovesTo(st1, e2, a2, c, c.(phase := CameFromTg(TgWaitTg)));
    OneTurn(st1, e2, a2, idle2, c.(phase := CameFromTg(TgWaitTg)));
    FirstIsFresh(st2, e3, a3, []);
    MovesTo(st2, e3, a3, c.(phase := CameFromTg(TgWaitTg)), c.(phase := CameFromTg(TgWaitDtmf), controller := true));
    OneTurn(st2, e3, a3, [], c.(phase := CameFromTg(TgWaitDtmf), controller := true));
  }

  lemma NoneFound(st: State, e: Event)
    requires forall k :: 0 <= k < |st.bridges| ==> !Matches(st.bridges[k], e)
    ensures Find(st.bridges, e) == |st.bridges|
  {
  }

  // The three forms of what may be dialed.
  predicate NamesUser(ext: string) {
    |ext| > 3 && ext[..3] == "tg#"
  }

  predicate NamesPhone(ext: string) {
    |ext| > 1 && ext[0] == '+' && IsDigits(ext[1..])
  }

  predicate IsTarget(ext: string) {
    || NamesUser(ext) || NamesPhone(ext)
    || (ext != "" && IsDigits(ext) && Number(ext) < 0x8000_0000_0000_0000)
  }

  // Calls are not blocked, the target is known or found, and the call is made.
  predicate DialsWell(s: Shared, ext: string, a: Answers) {
    && s.blockUntil <= a.now && a.createCall.Replied?
    && (NamesUser(ext) ==> ext[3..] in s.usernames || (a.searchChat.Replied? && a.chatIsPrivate))
    && (NamesPhone(ext) ==> ext[1..] in s.phones || (a.importContact.Replied? && a.importContact.value != 0))
  }

  // The bridge of a SIP call to ext that was answered.
  function Answered(id: nat, sip: int, ext: string): Context
    requires IsTarget(ext)
  {
    var c := NewContext(id).(sip := sip, phase := CameFromSip(SipWaitConfirm));
    if NamesUser(ext) then c.(extUsername := ext[3..])
    else if NamesPhone(ext) then c.(extPhone := ext[1..])
    else c.(userId := Number(ext))
  }

  lemma AcceptsTarget(w: World, ext: string, a: Answers)
    requires IsTarget(ext) && a.sipAnswer
    ensures var w' := AcceptIncomingSip(w, ext, a);
      && w'.s == w.s
      && w'.c == (if NamesUser(ext) then w.c.(extUsername := ext[3..])
                  else if NamesPhone(ext) then w.c.(extPhone := ext[1..])
                  else w.c.(userId := Number(ext)))
  {
    hide Number;
    if NamesPhone(ext) { assert !IsDigits(ext); }
  }

  lemma DialsTarget(w: World, id: nat, sip: int, ext: string, a: Answers)
    requires IsTarget(ext) && w.c == Answered(id, sip, ext) && DialsWell(w.s, ext, a)
    ensures var w' := DialTg(w, a); w'.c == w.c.(tg := a.createCall.value) && w'.s.errors == w.s.errors
  {
    hide Number, IsDigits;
  }

  lemma AnsweredIs(id: nat, sip: int, ext: string)
    requires IsTarget(ext)
    ensures var c := Answered(id, sip, ext);
      c.id == id && c.sip == sip && c.tg == NO_TG && c.phase == CameFromSip(SipWaitConfirm) && c.hangupCode == 0
      && !c.controller
  {
  }

  // What a SIP call to ext goes through.
  function SipEvents(sip: int, ext: string, tg: int, user: int, again: bool): (es: seq<Event>)
    ensures |es| == 4
  {
    [IncomingCall(sip, ext), CallStateUpdate(sip, Early), UpdateCall(tg, again, Ready, user), CallMediaStateUpdate(sip, true)]
  }

  // Its bridge behind the first n + 1 of them.
  function SipContext(id: nat, sip: int, ext: string, tg: int, user: int, n: nat): Context
    requires IsTarget(ext) && n < 4
  {
    var c := Answered(id, sip, ext);
    if n == 0 then c
    else if n == 1 then c.(phase := CameFromSip(SipWaitTg), tg := tg)
    else c.(phase := if n == 2 then CameFromSip(SipWaitMedia) else CameFromSip(SipWaitDtmf), tg := tg,
            controller := true, userId := user)
  }

  // The n-th event with favourable answers moves the bridge to its next form.
  lemma SipTurn(st: State, id: nat, sip: int, ext: string, tg: int, user: int, again: bool, n: nat, a: Answers)
    requires IsTarget(ext) && 0 < n < 4 && sip != NO_SIP && tg != NO_TG
    requires IsAt(st, SipContext(id, sip, ext, tg, user, n - 1))
    requires IsFresh(st, SipEvents(sip, ext, tg, user, again)[n], a)
    requires n == 1 ==> DialsWell(st.s, ext, a) && a.createCall == Replied(tg)
    requires n == 2 ==> a.sipAnswer
    requires n == 3 ==> a.bridgeAudio
    ensures IsAt(Handle(st, SipEvents(sip, ext, tg, user, again)[n], a), SipContext(id, sip, ext, tg, user, n))
  {
    hide Inv, IsFresh, ContextOf, Answered, Handle, NoErrors, IsTarget, DialTg;
    AnsweredIs(id, sip, ext);
    var c, e := SipContext(id, sip, ext, tg, user, n - 1), SipEvents(sip, ext, tg, user, again)[n];
    var w := World(c, st.s, st.log);
    if n == 1 { DialsTarget(w, id, sip, ext, a); }
    MovesTo(st, e, a, c, SipContext(id, sip, ext, tg, user, n));
  }

  lemma SipStarts(st: State, sip: int, ext: string, tg: int, user: int, again: bool, a: Answers)
    requires Inv(st) && ErrorsKnown(st) && forall k :: 0 <= k < |st.bridges| ==> st.bridges[k].sip != sip
    requires IsTarget(ext) && a.sipAnswer && IsFresh(st, IncomingCall(sip, ext), a)
    ensures IsAt(Handle(st, IncomingCall(sip, ext), a), SipContext(st.counter + 1, sip, ext, tg, user, 0))
  {
    hide Inv, IsFresh, ContextOf, Handle, NoErrors, NamesPhone, NamesUser, IsDigits, Number, AcceptIncomingSip;
    var w := World(NewContext(st.counter + 1), st.s, st.log);
    AcceptsTarget(TakeSip(w, sip), ext, a);
    NoneFound(st, IncomingCall(sip, ext));
    StartsAs(st, IncomingCall(sip, ext), a, SipContext(st.counter + 1, sip, ext, tg, user, 0));
  }

  // An event with idle steps behind it, n of them already done.
  ghost predicate AreTurns(turns: seq<seq<Step>>, events: seq<Event>, id: nat, sip: int, ext: string, tg: int, user: int)
    requires IsTarget(ext) && |events| == 4
  {
    && |turns| == 4
    && forall n :: 0 <= n < 4 ==>
         && turns[n] != [] && turns[n][0].External? && turns[n][0].e == events[n]
         && forall k :: 1 <= k < |turns[n]| ==> IsIdle(turns[n][k], SipContext(id, sip, ext, tg, user, n))
  }

  function Joined(turns: seq<seq<Step>>): seq<Step> {
    if turns == [] then [] else Joined(turns[..|turns| - 1]) + turns[|turns| - 1]
  }

  // At every turn somebody answered, and dialing went well when it was tried.
  ghost predicate Favourable(st: State, turns: seq<seq<Step>>, ext: string, tg: int)
    requires |turns| == 4 && forall n :: 0 <= n < 4 ==> turns[n] != [] && turns[n][0].External?
  {
    && turns[0][0].a.sipAnswer
    && DialsWell(After(st, turns[0]).s, ext, turns[1][0].a) && turns[1][0].a.createCall == Replied(tg)
    && turns[2][0].a.sipAnswer && turns[3][0].a.bridgeAudio
  }

  lemma {:induction false} SipThrough(st: State, turns: seq<seq<Step>>, sip: int, ext: string, tg: int, user: int,
      again: bool, n: nat)
    requires Inv(st) && ErrorsKnown(st) && (forall k :: 0 <= k < |st.bridges| ==> st.bridges[k].sip != sip)
    requires IsTarget(ext) && tg != NO_TG && sip != NO_SIP && 0 < n <= 4
    requires AreTurns(turns, SipEvents(sip, ext, tg, user, again), st.counter + 1, sip, ext, tg, user)
    requires Favourable(st, turns, ext, tg) && IsFreshRun(st, Joined(turns[..n]))
    ensures IsAt(After(st, Joined(turns[..n])), SipContext(st.counter + 1, sip, ext, tg, user, n - 1))
    decreases n
  {
    hide Inv, IsFresh, IsFreshRun, After, IsAt, ErrorsKnown, IsIdle, DialsWell, SipContext, IsTarget, Handle;
    var before, turn := turns[..n - 1], turns[n - 1];
    var e, a, idle := turn[0].e, turn[0].a, turn[1..];
    assert turns[..n][..n - 1] == before && turn == [External(e, a)] + idle;
    FreshJoin(st, Joined(before), turn);
    AfterJoin(st, Joined(before), turn);
    var at := After(st, Joined(before));
    FirstIsFresh(at, e, a, idle);
    if n == 1 {
      assert before == [];
      NothingDone(st);
      SipStarts(st, sip, ext, tg, user, again, a);
    } else {
      SipThrough(st, turns, sip, ext, tg, user, again, n - 1);
      if n == 2 { assert before == [turns[0]]; JustOne(turns[0]); }
      SipTurn(at, st.counter + 1, sip, ext, tg, user, again, n - 1, a);
    }
    OneTurn(at, e, a, idle, SipContext(st.counter + 1, sip, ext, tg, user, n - 1));
  }

  lemma NothingDone(st: State)
    ensures After(st, Joined([])) == st
  {
  }

  lemma JustOne(turn: seq<Step>)
    ensures Joined([turn]) == turn
  {
    assert [turn][..0] == [] && [] + turn == turn;
  }

  // A SIP call to somebody who can be called and answers, whatever happens to others in
  // between, ends up with both calls and a controller, waiting for digits.
  lemma SipCallConnects(st: State, turns: seq<seq<Step>>, sip: int, ext: string, tg: int, user: int, again: bool)
    requires Inv(st) && ErrorsKnown(st) && (forall k :: 0 <= k < |st.bridges| ==> st.bridges[k].sip != sip)
    requires IsTarget(ext) && tg != NO_TG && sip != NO_SIP
    requires AreTurns(turns, SipEvents(sip, ext, tg, user, again), st.counter + 1, sip, ext, tg, user)
    requires Favourable(st, turns, ext, tg) && IsFreshRun(st, Joined(turns))
    ensures var c := ContextOf(After(st, Joined(turns)), st.counter + 1);
      && c.Some? && c.value.phase == CameFromSip(SipWaitDtmf) && c.value.sip == sip && c.value.tg == tg
      && c.value.controller
  {
    hide Inv, IsFresh, After, ErrorsKnown, IsIdle, DialsWell, IsTarget, ContextOf, Answered, Favourable;
    assert turns[..4] == turns;
    SipThrough(st, turns, sip, ext, tg, user, again, 4);
    AnsweredIs(st.counter + 1, sip, ext);
  }
}
