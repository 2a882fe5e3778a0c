// Whole runs of the gateway: who holds which call id, and that each is let go of once.
module GatewayRuns {
  import opened Options
  import opened GatewayModel

  // ----- what holds of one bridge between events -----

  ghost predicate ErrorPending(errors: seq<InternalError>, id: nat) {
    exists e :: e in errors && e.contextId == id
  }

  // A bridge that misses an id it asked for has an error waiting for it; audio is bridged
  // only when there is a controller and a SIP call.
  ghost predicate IsSound(c: Context, errors: seq<InternalError>) {
    match c.phase
    case Init => false
    case X => false
    case CameFromTg(phase) =>
      && c.tg != NO_TG
      && (c.sip == NO_SIP ==> phase == TgSipWaitMedia && ErrorPending(errors, c.id))
      && (phase == TgWaitDtmf ==> c.controller)
    case CameFromSip(phase) =>
      && c.sip != NO_SIP
      && (c.tg == NO_TG <== phase == SipWaitConfirm)
      && (c.tg == NO_TG && phase != SipWaitConfirm ==> phase == SipWaitTg && ErrorPending(errors, c.id))
      && (phase == SipWaitMedia || phase == SipWaitDtmf ==> c.controller)
  }

  // How often bridges hold an id.
  function Holders(bridges: seq<Context>, x: CallId): nat {
    if bridges == [] then 0 else Holders(bridges[..|bridges| - 1], x) + Held(bridges[|bridges| - 1])[x]
  }

  // Every id taken on is still held, was reported ended by its own side, or was hung up,
  // and no id is held twice.
  ghost predicate IsSettled(bridges: seq<Context>, log: Log, x: CallId) {
    && log.taken[x] == Holders(bridges, x) + log.ended[x] + log.hungUp[x]
    && Holders(bridges, x) <= 1
  }

  ghost predicate Inv(st: State) {
    && (forall i :: 0 <= i < |st.bridges| ==> IsSound(st.bridges[i], st.s.errors))
    && IdsDiffer(st)
    && forall x :: IsSettled(st.bridges, st.log, x)
  }

  // The ids of events are real, and the ids that dialing returns are not held by a bridge.
  ghost predicate IsFresh(st: State, e: Event, a: Answers) {
    && (if e.UpdateCall? then e.id != NO_TG else e.id != NO_SIP)
    && (a.sipDial.Some? ==> a.sipDial.value != NO_SIP && Holders(st.bridges, SIP(a.sipDial.value)) == 0)
    && (a.createCall.Replied? ==> a.createCall.value != NO_TG && Holders(st.bridges, TG(a.createCall.value)) == 0)
  }

  // ----- one bridge, one event -----

  predicate KeepsId(w: World, w': World, x: CallId) {
    w'.log.taken[x] + Held(w.c)[x] + w.log.ended[x] + w.log.hungUp[x]
    == w.log.taken[x] + Held(w'.c)[x] + w'.log.ended[x] + w'.log.hungUp[x]
  }

  // Between two worlds of a bridge: no id is lost, other ids than the given ones do not
  // appear, and errors are only added.
  ghost predicate Keeps(w: World, w': World, extra: set<CallId>) {
    && (forall x :: KeepsId(w, w', x) && Held(w'.c)[x] <= Held(w.c)[x] + if x in extra then 1 else 0)
    && w'.c.id == w.c.id
    && w.s.errors <= w'.s.errors
  }

  predicate IsNew(c: Context) {
    c.phase == Init && c.tg == NO_TG && c.sip == NO_SIP
  }

  // The ids that handling an event may give to a bridge.
  function Offered(c: Context, e: Event, a: Answers): set<CallId> {
    (if a.sipDial.Some? then {SIP(a.sipDial.value)} else {})
    + (if a.createCall.Replied? then {TG(a.createCall.value)} else {})
    + (if c.phase == Init then if e.UpdateCall? then {TG(e.id)} else {SIP(e.id)} else {})
  }

  ghost predicate Reached(w: World, w': World, extra: set<CallId>) {
    && Keeps(w, w', extra)
    && (if w'.c.phase == X then Held(w'.c) == multiset{} else IsSound(w'.c, w'.s.errors))
  }

  lemma FinishKeeps(w: World, w1: World, extra: set<CallId>)
    requires Keeps(w, w1, extra)
    ensures Reached(w, Finish(w1), extra)
  {
    var w2 := Finish(w1);
    assert Held(w2.c) == multiset{};
  }

  // The ways in which the ids of a bridge change before it may finish.
  predicate SameBut(w: World, w': World, taken: multiset<CallId>) {
    && w'.log == w.log.(taken := w.log.taken + taken)
    && w'.c.id == w.c.id && w.s.errors <= w'.s.errors
  }

  lemma NothingTaken(w: World, w': World, extra: set<CallId>)
    requires SameBut(w, w', multiset{}) && w'.c.tg == w.c.tg && w'.c.sip == w.c.sip
    ensures Keeps(w, w', extra)
  {
    assert Held(w'.c) == Held(w.c);
  }

  lemma TgTaken(w: World, w': World, extra: set<CallId>)
    requires w.c.tg == NO_TG && w'.c.tg != NO_TG && w'.c.sip == w.c.sip
    requires SameBut(w, w', multiset{TG(w'.c.tg)}) && TG(w'.c.tg) in extra
    ensures Keeps(w, w', extra)
  {
    assert Held(w'.c) == Held(w.c) + multiset{TG(w'.c.tg)};
  }

  lemma SipTaken(w: World, w': World, extra: set<CallId>)
    requires w.c.sip == NO_SIP && w'.c.sip != NO_SIP && w'.c.tg == w.c.tg
    requires SameBut(w, w', multiset{SIP(w'.c.sip)}) && SIP(w'.c.sip) in extra
    ensures Keeps(w, w', extra)
  {
    assert Held(w'.c) == Held(w.c) + multiset{SIP(w'.c.sip)};
  }

  lemma BothTaken(w: World, w': World, extra: set<CallId>)
    requires IsNew(w.c) && w'.c.tg != NO_TG && w'.c.sip != NO_SIP
    requires SameBut(w, w', multiset{TG(w'.c.tg), SIP(w'.c.sip)})
    requires TG(w'.c.tg) in extra && SIP(w'.c.sip) in extra
    ensures Keeps(w, w', extra)
  {
    assert Held(w'.c) == multiset{TG(w'.c.tg), SIP(w'.c.sip)} && Held(w.c) == multiset{};
  }

  lemma TgEnds(w: World, extra: set<CallId>)
    requires w.c.tg != NO_TG
    ensures Reached(w, Finish(CleanTgId(w)), extra) && Finish(CleanTgId(w)).c.phase == X
  {
    assert Held(w.c) == Held(CleanTgId(w).c) + multiset{TG(w.c.tg)};
    FinishKeeps(w, CleanTgId(w), extra);
  }

  lemma SipEnds(w: World, extra: set<CallId>)
    requires w.c.sip != NO_SIP
    ensures Reached(w, Finish(CleanSipId(w)), extra) && Finish(CleanSipId(w)).c.phase == X
  {
    assert Held(w.c) == Held(CleanSipId(w).c) + multiset{SIP(w.c.sip)};
    FinishKeeps(w, CleanSipId(w), extra);
  }

  lemma NothingEnds(w: World, extra: set<CallId>)
    ensures Reached(w, Finish(w), extra) && Finish(w).c.phase == X
  {
    NothingTaken(w, w, extra);
    FinishKeeps(w, w, extra);
  }

  lemma FailIsPending(w: World, code: nat)
    ensures ErrorPending(Fail(w, code).s.errors, w.c.id)
  {
    assert InternalError(w.c.id, code) in Fail(w, code).s.errors;
  }

  lemma PendingStays(before: seq<InternalError>, after: seq<InternalError>, id: nat)
    requires before <= after && ErrorPending(before, id)
    ensures ErrorPending(after, id)
  {
    var e :| e in before && e.contextId == id;
    assert e in after;
  }

  // Dialing takes on the id it is given, or leaves an error.
  predicate Dialed(w: World, w': World, a: Answers) {
    && w'.c == w.c.(tg := w'.c.tg)
    && if w'.c.tg == w.c.tg then w'.log == w.log && ErrorAdded(w, w')
       else a.createCall == Replied(w'.c.tg) && SameBut(w, w', multiset{TG(w'.c.tg)})
  }

  predicate ErrorAdded(w: World, w': World) {
    |w'.s.errors| == |w.s.errors| + 1 && w.s.errors <= w'.s.errors && w'.s.errors[|w.s.errors|].contextId == w.c.id
  }

  lemma DialByIdIs(w: World, user: int, a: Answers)
    requires w.c.tg == NO_TG && (a.createCall.Replied? ==> a.createCall.value != NO_TG)
    ensures Dialed(w, DialById(w, user, a), a)
  {
  }

  // What was found is remembered before the call is made.
  lemma DialedAfter(w: World, w1: World, w': World, a: Answers)
    requires w1 == w.(s := w1.s) && w1.s.errors == w.s.errors && Dialed(w1, w', a)
    ensures Dialed(w, w', a)
  {
  }

  lemma DialByNameIs(w: World, a: Answers)
    requires w.c.tg == NO_TG && (a.createCall.Replied? ==> a.createCall.value != NO_TG)
    ensures Dialed(w, DialByUsername(w, a), a) && Dialed(w, DialByPhone(w, a), a)
  {
    hide DialById;
    forall w1: World, user: int | w1 == w.(s := w1.s) && w1.s.errors == w.s.errors
      ensures Dialed(w, DialById(w1, user, a), a)
    {
      DialByIdIs(w1, user, a);
      DialedAfter(w, w1, DialById(w1, user, a), a);
    }
  }

  lemma DialTgIs(w: World, a: Answers)
    requires w.c.tg == NO_TG && (a.createCall.Replied? ==> a.createCall.value != NO_TG)
    ensures Dialed(w, DialTg(w, a), a)
  {
    hide DialByUsername, DialByPhone, DialById;
    DialByNameIs(w, a);
    DialByIdIs(w, w.c.userId, a);
  }

  lemma NewCallKeeps(w: World, e: Event, a: Answers)
    requires e.UpdateCall? && e.id != NO_TG && (a.sipDial.Some? ==> a.sipDial.value != NO_SIP)
    requires IsNew(w.c)
    ensures Reached(w, OnUpdateCall(w, e, a), Offered(w.c, e, a))
  {
    var extra, w' := Offered(w.c, e, a), OnUpdateCall(w, e, a);
    hide Keeps, Held, CleanUp, ErrorPending;
    if !e.incoming || e.tgState != Pending {
      NothingEnds(w, extra);
    } else if !a.callbackUriSet {
      TgTaken(w, TakeTg(w, e.id), extra);
      FinishKeeps(w, TakeTg(w, e.id), extra);
    } else if a.sipDial.Some? {
      BothTaken(w, w', extra);
    } else {
      TgTaken(w, w', extra);
      FailIsPending(TakeTg(w, e.id).(c := w'.c), SERVER_ERROR);
    }
  }

  lemma UpdateCallKeeps(w: World, e: Event, a: Answers)
    requires e.UpdateCall? && e.id != NO_TG && IsSound(w.c, w.s.errors) && w.c.tg == e.id
    ensures Reached(w, OnUpdateCall(w, e, a), Offered(w.c, e, a))
  {
    var extra, w' := Offered(w.c, e, a), OnUpdateCall(w, e, a);
    TgEnds(w, extra);
    hide Keeps, Held, CleanUp, ErrorPending, Finish, CleanTgId, Offered;
    if e.tgState == Ready {
      ReadyStaysSound(w, e, a);
      NothingTaken(w, w', extra);
    } else if e.tgState != Discarded && e.tgState != Error {
      NothingTaken(w, w', extra);
    }
  }

  lemma ReadyStaysSound(w: World, e: Event, a: Answers)
    requires e.UpdateCall? && e.tgState == Ready && IsSound(w.c, w.s.errors) && w.c.tg != NO_TG
    ensures var w' := OnUpdateCall(w, e, a);
      && IsSound(w'.c, w'.s.errors) && w'.c.phase != X
      && SameBut(w, w', multiset{}) && w'.c.tg == w.c.tg && w'.c.sip == w.c.sip
  {
    if ErrorPending(w.s.errors, w.c.id) {
      PendingStays(w.s.errors, OnUpdateCall(w, e, a).s.errors, w.c.id);
    }
  }

  lemma AcceptIs(w: World, ext: string, a: Answers)
    ensures var w' := AcceptIncomingSip(w, ext, a);
      && w'.log == w.log && w.s.errors <= w'.s.errors
      && w'.c.id == w.c.id && w'.c.tg == w.c.tg && w'.c.sip == w.c.sip
  {
    hide IsDigits, Number;
  }

  lemma IncomingCallKeeps(w: World, e: Event, a: Answers)
    requires e.IncomingCall? && e.id != NO_SIP
    requires IsNew(w.c) || (IsSound(w.c, w.s.errors) && w.c.sip == e.id)
    ensures Reached(w, OnIncomingCall(w, e, a), Offered(w.c, e, a))
  {
    var extra, w' := Offered(w.c, e, a), OnIncomingCall(w, e, a);
    hide Keeps, Held, ErrorPending, AcceptIncomingSip;
    if w.c.phase == Init {
      AcceptIs(TakeSip(w, e.id), e.extension, a);
      SipTaken(w, w', extra);
    } else {
      NothingTaken(w, w', extra);
    }
  }

  lemma CallStateKeeps(w: World, e: Event, a: Answers)
    requires e.CallStateUpdate? && e.id != NO_SIP
    requires a.createCall.Replied? ==> a.createCall.value != NO_TG
    requires IsNew(w.c) || (IsSound(w.c, w.s.errors) && w.c.sip == e.id)
    ensures Reached(w, OnCallState(w, e, a), Offered(w.c, e, a))
  {
    var extra, w' := Offered(w.c, e, a), OnCallState(w, e, a);
    hide Keeps, Held, CleanUp, DialTg, Finish, CleanSipId;
    if w.c.phase == Init {
      NothingEnds(w, extra);
    } else if w.c.phase == CameFromSip(SipWaitConfirm) && e.sipState == Early {
      DialTgIs(w, a);
      if w'.c.tg == NO_TG {
        NothingTaken(w, w', extra);
        assert w'.s.errors[|w.s.errors|] in w'.s.errors;
      } else {
        TgTaken(w, w', extra);
      }
    } else if e.sipState == Disconnected {
      SipEnds(w, extra);
    } else {
      NothingTaken(w, w', extra);
    }
  }

  lemma CallMediaKeeps(w: World, e: Event, a: Answers)
    requires e.CallMediaStateUpdate? && e.id != NO_SIP
    requires IsNew(w.c) || (IsSound(w.c, w.s.errors) && w.c.sip == e.id)
    ensures Reached(w, OnCallMediaState(w, e, a), Offered(w.c, e, a))
  {
    var extra, w' := Offered(w.c, e, a), OnCallMediaState(w, e, a);
    hide Keeps, Held, CleanUp, ErrorPending;
    if w.c.phase == Init {
      NothingEnds(w, extra);
    } else {
      NothingTaken(w, w', extra);
    }
  }

  lemma FinishInternal(st: State, i: nat, e: InternalError)
    requires i < |st.bridges| && st.bridges[i].phase != Init && st.bridges[i].phase != X
    ensures Reached(At(st, i), OnInternalError(At(st, i), e), {})
  {
    var w := At(st, i);
    var w1 := w.(c := w.c.(hangupCode := e.code));
    NothingTaken(w, w1, {});
    FinishKeeps(w, w1, {});
    assert OnInternalError(w, e) == Finish(w1);
  }

  lemma ReactKeeps(w: World, e: Event, a: Answers)
    requires (if e.UpdateCall? then e.id != NO_TG else e.id != NO_SIP)
    requires a.sipDial.Some? ==> a.sipDial.value != NO_SIP
    requires a.createCall.Replied? ==> a.createCall.value != NO_TG
    requires IsNew(w.c) || (IsSound(w.c, w.s.errors) && Matches(w.c, e))
    ensures Reached(w, React(w, e, a), Offered(w.c, e, a))
  {
    assert w.c.phase == Init ==> IsNew(w.c);
    hide Reached, IsSound;
    match e
    case UpdateCall(_, _, _, _) => if w.c.phase == Init { NewCallKeeps(w, e, a); } else { UpdateCallKeeps(w, e, a); }
    case IncomingCall(_, _) => IncomingCallKeeps(w, e, a);
    case CallStateUpdate(_, _) => CallStateKeeps(w, e, a);
    case CallMediaStateUpdate(_, _) => CallMediaKeeps(w, e, a);
  }

  // ----- all bridges -----

  lemma {:induction false} HoldersAt(bridges: seq<Context>, i: nat, c: Context, x: CallId)
    requires i < |bridges|
    ensures Holders(bridges[i := c], x) == Holders(bridges, x) - Held(bridges[i])[x] + Held(c)[x]
    ensures Holders(bridges[..i] + bridges[i + 1..], x) == Holders(bridges, x) - Held(bridges[i])[x]
    ensures Held(bridges[i])[x] <= Holders(bridges, x)
  {
    hide Held;
    var n, rest := |bridges| - 1, bridges[..i] + bridges[i + 1..];
    var front, put := bridges[..n], bridges[i := c];
    if i == n {
      assert rest == front && put[..n] == front;
    } else {
      HoldersAt(front, i, c, x);
      assert rest[..n - 1] == front[..i] + front[i + 1..] && rest[n - 1] == bridges[n];
      assert put[..n] == front[i := c];
    }
  }

  lemma HoldersAppend(bridges: seq<Context>, c: Context, x: CallId)
    ensures Holders(bridges + [c], x) == Holders(bridges, x) + Held(c)[x]
  {
    assert (bridges + [c])[..|bridges|] == bridges;
  }

  // What no bridge matches, no bridge holds.
  lemma {:induction false} NotHeld(bridges: seq<Context>, e: Event)
    requires if e.UpdateCall? then e.id != NO_TG else e.id != NO_SIP
    requires forall k :: 0 <= k < |bridges| ==> !Matches(bridges[k], e)
    ensures Holders(bridges, if e.UpdateCall? then TG(e.id) else SIP(e.id)) == 0
  {
    if bridges != [] {
      NotHeld(bridges[..|bridges| - 1], e);
    }
  }

  lemma SoundStays(c: Context, before: seq<InternalError>, after: seq<InternalError>)
    requires IsSound(c, before) && before <= after
    ensures IsSound(c, after)
  {
    if ErrorPending(before, c.id) {
      PendingStays(before, after, c.id);
    }
  }

  ghost predicate IdsDiffer(st: State) {
    && (forall i :: 0 <= i < |st.bridges| ==> st.bridges[i].id <= st.counter)
    && (forall i, j :: 0 <= i < j < |st.bridges| ==> st.bridges[i].id != st.bridges[j].id)
  }

  // What handling an event finds: bridge i may be new.
  ghost predicate InvBut(st: State, i: nat, extra: set<CallId>) {
    && (forall k :: 0 <= k < |st.bridges| && k != i ==> IsSound(st.bridges[k], st.s.errors))
    && IdsDiffer(st)
    && (forall x :: IsSettled(st.bridges, st.log, x))
    && (forall x :: x in extra ==> Holders(st.bridges, x) == 0)
  }

  lemma HoldersStore(st: State, i: nat, w': World, x: CallId)
    requires i < |st.bridges|
    ensures Holders(Store(st, i, w').bridges, x)
      == Holders(st.bridges, x) - Held(st.bridges[i])[x] + if w'.c.phase == X then 0 else Held(w'.c)[x]
    ensures Held(st.bridges[i])[x] <= Holders(st.bridges, x)
  {
    HoldersAt(st.bridges, i, w'.c, x);
    hide Holders, Held;
  }

  lemma ReachedId(w: World, w': World, extra: set<CallId>, x: CallId)
    requires Reached(w, w', extra)
    ensures KeepsId(w, w', x) && Held(w'.c)[x] <= Held(w.c)[x] + if x in extra then 1 else 0
    ensures w'.c.phase == X ==> Held(w'.c)[x] == 0
  {
    hide IsSound, KeepsId;
    assert Held(w'.c)[x] <= Held(w.c)[x] + if x in extra then 1 else 0;
  }

  lemma StoreSettles(st: State, i: nat, w': World, extra: set<CallId>, x: CallId)
    requires i < |st.bridges| && Reached(At(st, i), w', extra) && IsSettled(st.bridges, st.log, x)
    requires x in extra ==> Holders(st.bridges, x) == 0
    ensures IsSettled(Store(st, i, w').bridges, w'.log, x)
  {
    hide Holders, Held, Reached, Store;
    ReachedId(At(st, i), w', extra, x);
    HoldersStore(st, i, w', x);
  }

  // Where the bridges are afterwards.
  lemma StoredBridges(st: State, i: nat, w': World)
    requires i < |st.bridges|
    ensures var st' := Store(st, i, w');
      && |st'.bridges| == |st.bridges| - (if w'.c.phase == X then 1 else 0)
      && forall k :: 0 <= k < |st'.bridges| ==>
           st'.bridges[k] ==
             if w'.c.phase == X then st.bridges[if k < i then k else k + 1] else if k == i then w'.c else st.bridges[k]
  {
  }

  lemma StoreSounds(st: State, i: nat, w': World, extra: set<CallId>)
    requires i < |st.bridges| && Reached(At(st, i), w', extra)
    requires forall k :: 0 <= k < |st.bridges| && k != i ==> IsSound(st.bridges[k], st.s.errors)
    ensures forall k :: 0 <= k < |Store(st, i, w').bridges| ==> IsSound(Store(st, i, w').bridges[k], w'.s.errors)
  {
    hide IsSound, Held, KeepsId;
    StoredBridges(st, i, w');
    var st' := Store(st, i, w');
    forall k | 0 <= k < |st'.bridges| ensures IsSound(st'.bridges[k], w'.s.errors) {
      var j := if w'.c.phase == X && k >= i then k + 1 else k;
      if j != i {
        SoundStays(st.bridges[j], st.s.errors, w'.s.errors);
      }
    }
  }

  lemma StoreIds(st: State, i: nat, w': World)
    requires i < |st.bridges| && IdsDiffer(st) && w'.c.id == st.bridges[i].id
    ensures IdsDiffer(Store(st, i, w'))
  {
    StoredBridges(st, i, w');
  }

  // The rest of the gateway is untouched while one bridge moves on.
  lemma StoreKeepsInv(st: State, i: nat, w': World, extra: set<CallId>)
    requires i < |st.bridges| && Reached(At(st, i), w', extra) && InvBut(st, i, extra)
    ensures Inv(Store(st, i, w'))
  {
    hide IsSound, IsSettled, Held, KeepsId, IdsDiffer;
    var st' := Store(st, i, w');
    StoreSounds(st, i, w', extra);
    StoreIds(st, i, w');
    forall x ensures IsSettled(st'.bridges, st'.log, x) {
      StoreSettles(st, i, w', extra, x);
    }
  }

  // ----- whole runs -----

  lemma SearchHolders(st: State, e: Event, x: CallId)
    requires if e.UpdateCall? then e.id != NO_TG else e.id != NO_SIP
    ensures Holders(SearchCall(st, e).bridges, x) == Holders(st.bridges, x)
    ensures Find(st.bridges, e) == |st.bridges| ==>
      Holders(st.bridges, if e.UpdateCall? then TG(e.id) else SIP(e.id)) == 0
  {
    if Find(st.bridges, e) == |st.bridges| {
      HoldersAppend(st.bridges, NewContext(st.counter + 1), x);
      NotHeld(st.bridges, e);
    }
  }

  // An event finds its bridge or gets a new one.
  lemma SearchFinds(st: State, e: Event, a: Answers)
    requires Inv(st) && IsFresh(st, e, a)
    ensures var i, st1 := Find(st.bridges, e), SearchCall(st, e);
      && InvBut(st1, i, Offered(st1.bridges[i], e, a))
      && (IsNew(st1.bridges[i]) || (IsSound(st1.bridges[i], st1.s.errors) && Matches(st1.bridges[i], e)))
  {
    var i := Find(st.bridges, e);
    if i < |st.bridges| {
      assert IsSound(st.bridges[i], st.s.errors) && st.bridges[i].phase != Init;
      hide Holders, IsSettled, IsSound, Find;
    } else {
      NewBridgeFinds(st, e, a);
      hide Inv, Holders, IsSettled, IsSound, Find, Offered;
    }
  }

  lemma NewBridgeId(st: State, e: Event, a: Answers, x: CallId)
    requires IsSettled(st.bridges, st.log, x) && IsFresh(st, e, a) && Find(st.bridges, e) == |st.bridges|
    ensures var st1 := SearchCall(st, e);
      && IsSettled(st1.bridges, st1.log, x)
      && (x in Offered(NewContext(st.counter + 1), e, a) ==> Holders(st1.bridges, x) == 0)
  {
    hide Holders, Find, Offered;
    SearchHolders(st, e, x);
    if x in Offered(NewContext(st.counter + 1), e, a) {
      OfferedCases(NewContext(st.counter + 1), e, a, x);
    }
  }

  lemma NewBridgeFinds(st: State, e: Event, a: Answers)
    requires Inv(st) && IsFresh(st, e, a) && Find(st.bridges, e) == |st.bridges|
    ensures InvBut(SearchCall(st, e), |st.bridges|, Offered(NewContext(st.counter + 1), e, a))
  {
    hide Holders, IsSettled, IsSound, Find, Offered, IsFresh;
    var st1 := SearchCall(st, e);
    forall x
      ensures IsSettled(st1.bridges, st1.log, x)
      ensures x in Offered(NewContext(st.counter + 1), e, a) ==> Holders(st1.bridges, x) == 0
    {
      assert IsSettled(st.bridges, st.log, x);
      NewBridgeId(st, e, a, x);
    }
    assert forall k :: 0 <= k < |st.bridges| ==> st1.bridges[k] == st.bridges[k];
  }

  lemma OfferedCases(c: Context, e: Event, a: Answers, x: CallId)
    requires x in Offered(c, e, a)
    ensures || (a.sipDial.Some? && x == SIP(a.sipDial.value)) || (a.createCall.Replied? && x == TG(a.createCall.value))
            || x == if e.UpdateCall? then TG(e.id) else SIP(e.id)
  {
  }

  lemma HandleKeepsInv(st: State, e: Event, a: Answers)
    requires Inv(st) && IsFresh(st, e, a)
    ensures Inv(Handle(st, e, a))
  {
    SearchFinds(st, e, a);
    var i, st1 := Find(st.bridges, e), SearchCall(st, e);
    ReactKeeps(At(st1, i), e, a);
    hide Inv, InvBut, React, IsSound, Reached, Offered;
    StoreKeepsInv(st1, i, React(At(st1, i), e, a), Offered(st1.bridges[i], e, a));
  }

  lemma HandleInternalKeepsInv(st: State)
    requires Inv(st)
    ensures Inv(HandleInternal(st))
  {
    if st.s.errors != [] {
      var e, st1 := st.s.errors[0], st.(s := st.s.(errors := st.s.errors[1..]));
      var i := FindContext(st1.bridges, e.contextId);
      forall k | 0 <= k < |st.bridges| && k != i ensures IsSound(st.bridges[k], st1.s.errors) {
        SoundWithout(st.bridges[k], st.s.errors);
      }
      if i < |st1.bridges| {
        hide IsSound;
        assert InvBut(st1, i, {});
        FinishInternal(st1, i, e);
        StoreKeepsInv(st1, i, OnInternalError(At(st1, i), e), {});
      }
    }
  }

  // The popped error is for another bridge.
  lemma SoundWithout(c: Context, errors: seq<InternalError>)
    requires errors != [] && errors[0].contextId != c.id && IsSound(c, errors)
    ensures IsSound(c, errors[1..])
  {
    if ErrorPending(errors, c.id) {
      var x :| x in errors && x.contextId == c.id;
      assert x in errors[1..];
    }
  }

  datatype Step = External(e: Event, a: Answers) | Internal

  function Next(st: State, step: Step): State {
    match step
    case External(e, a) => Handle(st, e, a)
    case Internal => HandleInternal(st)
  }

  function After(st: State, run: seq<Step>): State {
    if run == [] then st else Next(After(st, run[..|run| - 1]), run[|run| - 1])
  }

  ghost predicate IsFreshRun(st: State, run: seq<Step>) {
    forall k :: 0 <= k < |run| && run[k].External? ==> IsFresh(After(st, run[..k]), run[k].e, run[k].a)
  }

  lemma {:induction false} RunKeepsInv(usernames: map<string, int>, phones: map<string, int>, now: int, run: seq<Step>)
    requires IsFreshRun(Start(usernames, phones, now), run)
    ensures Inv(After(Start(usernames, phones, now), run))
  {
    var st := Start(usernames, phones, now);
    if run != [] {
      var n := |run| - 1;
      assert forall k :: 0 <= k < n ==> run[..n][..k] == run[..k];
      RunKeepsInv(usernames, phones, now, run[..n]);
      if run[n].External? {
        HandleKeepsInv(After(st, run[..n]), run[n].e, run[n].a);
      } else {
        HandleInternalKeepsInv(After(st, run[..n]));
      }
    }
  }

  // ----- what a maintainer reads off -----

  lemma {:induction false} HeldByTwo(bridges: seq<Context>, i: nat, j: nat, x: CallId)
    requires i < j < |bridges|
    ensures Held(bridges[i])[x] + Held(bridges[j])[x] <= Holders(bridges, x)
  {
    hide Held;
    var n := |bridges| - 1;
    if j < n {
      HeldByTwo(bridges[..n], i, j, x);
    } else {
      HoldersAt(bridges[..n], i, bridges[i], x);
    }
  }

  lemma NoSharedIds(st: State, i: nat, j: nat)
    requires Inv(st) && i < j < |st.bridges|
    ensures st.bridges[i].tg != NO_TG ==> st.bridges[i].tg != st.bridges[j].tg
    ensures st.bridges[i].sip != NO_SIP ==> st.bridges[i].sip != st.bridges[j].sip
  {
    var b, c := st.bridges[i], st.bridges[j];
    assert IsSettled(st.bridges, st.log, TG(b.tg)) && IsSettled(st.bridges, st.log, SIP(b.sip));
    HeldByTwo(st.bridges, i, j, TG(b.tg));
    HeldByTwo(st.bridges, i, j, SIP(b.sip));
  }

  // An id taken on once and no longer held was let go of in one way, once.
  lemma LetGoOnce(st: State, x: CallId)
    requires Inv(st)
    ensures st.log.ended[x] + st.log.hungUp[x] <= st.log.taken[x] <= st.log.ended[x] + st.log.hungUp[x] + 1
    ensures st.log.taken[x] == st.log.ended[x] + st.log.hungUp[x] <==> Holders(st.bridges, x) == 0
  {
    assert IsSettled(st.bridges, st.log, x);
  }

  // Both calls of the bridge exist, or the second is not dialed yet.
  predicate IsComplete(c: Context) {
    if c.phase == CameFromSip(SipWaitConfirm) then c.sip != NO_SIP else c.tg != NO_TG && c.sip != NO_SIP
  }

  lemma NothingFailed(st: State)
    requires Inv(st) && st.s.errors == []
    ensures forall i :: 0 <= i < |st.bridges| ==> IsComplete(st.bridges[i])
  {
    hide Holders, IsSettled;
    forall i | 0 <= i < |st.bridges| ensures IsComplete(st.bridges[i]) {
      assert IsSound(st.bridges[i], st.s.errors);
    }
  }

  // Internal events only.
  function Drain(n: nat): (run: seq<Step>)
    ensures |run| == n && forall k :: 0 <= k < n ==> run[k] == Internal
  {
    seq(n, _ => Internal)
  }

  // Once the internal queue is worked off, no bridge is left whose dialing failed.
  lemma {:induction false} DrainedIsComplete(st: State)
    requires Inv(st)
    ensures var st' := After(st, Drain(|st.s.errors|));
      st'.s.errors == [] && Inv(st') && forall i :: 0 <= i < |st'.bridges| ==> IsComplete(st'.bridges[i])
    decreases |st.s.errors|
  {
    var n := |st.s.errors|;
    if n == 0 {
      hide Inv, IsComplete;
      NothingFailed(st);
    } else {
      hide Inv, HandleInternal, IsComplete, After, Drain;
      var st1 := HandleInternal(st);
      HandleInternalKeepsInv(st);
      InternalPops(st);
      DrainedIsComplete(st1);
      AfterFirst(st, n - 1);
    }
  }

  lemma InternalPops(st: State)
    requires st.s.errors != []
    ensures HandleInternal(st).s.errors == st.s.errors[1..]
  {
  }

  lemma {:induction false} AfterFirst(st: State, n: nat)
    ensures After(st, Drain(n + 1)) == After(HandleInternal(st), Drain(n))
  {
    hide HandleInternal;
    var run, rest := Drain(n + 1), Drain(n);
    assert run[..n] == rest;
    if n == 0 {
      assert run[..0] == [] && rest == [];
      assert After(st, run) == Next(After(st, run[..0]), Internal);
    } else {
      AfterFirst(st, n - 1);
      assert rest[..n - 1] == Drain(n - 1);
    }
  }
}
