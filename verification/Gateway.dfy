// The gateway, whose bridges and shared tables are updated in place.
module Gateway {
  import opened Options
  import G = GatewayModel
  import R = GatewayRuns

  class Bridge {
    const id: nat
    var phase: G.Phase
    var tg: int
    var sip: int
    var controller: bool
    var extUsername: string
    var extPhone: string
    var userId: int
    var hangupCode: nat

    ghost function Value(): G.Context
      reads this
    {
      G.Context(id, phase, tg, sip, controller, extUsername, extPhone, userId, hangupCode)
    }

    constructor (id: nat)
      ensures Value() == G.NewContext(id)
    {
      this.id, phase, tg, sip, controller := id, G.Init, G.NO_TG, G.NO_SIP, false;
      extUsername, extPhone, userId, hangupCode := "", "", 0, 0;
    }
  }

  class Gateway {
    var bridges: seq<Bridge>
    var internalEvents: seq<G.InternalError>
    var usernameCache: map<string, int>
    var phoneCache: map<string, int>
    var blockUntil: int
    var counter: nat
    ghost var log: G.Log
    ghost var calls: seq<G.Call>

    ghost predicate Wired()
      reads this
    {
      forall i, j :: 0 <= i < j < |bridges| ==> bridges[i] != bridges[j]
    }

    // What holds between events: every bridge is in a sound state, and every call id that was
    // taken on is held by one bridge, was reported ended, or was hung up.
    ghost predicate Valid()
      reads this, bridges
    {
      Wired() && R.Inv(State())
    }

    ghost function Values(): seq<G.Context>
      reads this, bridges
    {
      seq(|bridges|, i requires 0 <= i < |bridges| reads this, bridges => bridges[i].Value())
    }

    ghost function Shared(): G.Shared
      reads this
    {
      G.Shared(internalEvents, usernameCache, phoneCache, blockUntil, calls)
    }

    ghost function State(): G.State
      reads this, bridges
    {
      G.State(Values(), Shared(), log, counter)
    }

    ghost function World(b: Bridge): G.World
      reads this, b
    {
      G.World(b.Value(), Shared(), log)
    }

    constructor (usernames: map<string, int>, phones: map<string, int>, now: int)
      ensures Valid() && State() == G.Start(usernames, phones, now)
    {
      bridges, internalEvents, counter, log, calls := [], [], 0, G.NO_LOG, [];
      usernameCache, phoneCache, blockUntil := usernames, phones, now;
      new;
      R.RunKeepsInv(usernames, phones, now, []);
    }

    // ----- actions; each changes one bridge and the shared tables -----

    method Fail(b: Bridge, code: nat)
      modifies `internalEvents
      ensures World(b) == G.Fail(old(World(b)), code)
    {
      internalEvents := internalEvents + [G.InternalError(b.id, code)];
    }

    method StoreTgId(b: Bridge, id: int)
      modifies b`tg, `log
      ensures World(b) == G.TakeTg(old(World(b)), id)
    {
      b.tg := id;
      log := log.(taken := log.taken + multiset{G.TG(id)});
    }

    method StoreSipId(b: Bridge, id: int)
      modifies b`sip, `log
      ensures World(b) == G.TakeSip(old(World(b)), id)
    {
      b.sip := id;
      log := log.(taken := log.taken + multiset{G.SIP(id)});
    }

    method CleanTgId(b: Bridge)
      modifies b`tg, `log
      ensures World(b) == G.CleanTgId(old(World(b)))
    {
      log := log.(ended := log.ended + multiset{G.TG(b.tg)});
      b.tg := G.NO_TG;
    }

    method CleanSipId(b: Bridge)
      modifies b`sip, `log
      ensures World(b) == G.CleanSipId(old(World(b)))
    {
      log := log.(ended := log.ended + multiset{G.SIP(b.sip)});
      b.sip := G.NO_SIP;
    }

    // Each id that is left is discarded or hung up at its own side.
    method CleanUp(b: Bridge)
      modifies b`tg, b`sip, `log
      ensures World(b) == G.CleanUp(old(World(b)))
    {
      HangsUpAll(log.hungUp, b.Value());
      hide G.Held;
      if b.tg != G.NO_TG {
        log := log.(hungUp := log.hungUp + multiset{G.TG(b.tg)});
        b.tg := G.NO_TG;
      }
      if b.sip != G.NO_SIP {
        log := log.(hungUp := log.hungUp + multiset{G.SIP(b.sip)});
        b.sip := G.NO_SIP;
      }
    }

    method Finish(b: Bridge)
      modifies b`phase, b`tg, b`sip, `log
      ensures World(b) == G.Finish(old(World(b)))
    {
      b.phase := G.X;
      CleanUp(b);
    }

    method DialSip(b: Bridge, a: G.Answers)
      modifies b`sip, `log, `internalEvents
      ensures World(b) == G.DialSip(old(World(b)), a)
    {
      if a.sipDial.Some? {
        StoreSipId(b, a.sipDial.value);
      } else {
        Fail(b, G.SERVER_ERROR);
      }
    }

    method AnswerSip(b: Bridge, a: G.Answers)
      modifies `internalEvents
      ensures World(b) == G.AnswerSip(old(World(b)), a)
    {
      if !a.sipAnswer {
        Fail(b, G.SERVER_ERROR);
      }
    }

    method AnswerTg(b: Bridge, a: G.Answers)
      modifies `internalEvents
      ensures World(b) == G.AnswerTg(old(World(b)), a)
    {
      if !a.tgAccept {
        Fail(b, G.SERVER_ERROR);
      }
    }

    method BridgeAudio(b: Bridge, a: G.Answers)
      modifies `internalEvents
      ensures World(b) == G.BridgeAudio(old(World(b)), a)
    {
      if !a.bridgeAudio {
        Fail(b, G.SERVER_ERROR);
      }
    }

    method AcceptIncomingSip(b: Bridge, ext: string, a: G.Answers)
      modifies b`extUsername, b`extPhone, b`userId, `internalEvents
      ensures World(b) == G.AcceptIncomingSip(old(World(b)), ext, a)
    {
      var valid := true;
      if |ext| > 3 && ext[..3] == "tg#" {
        b.extUsername := ext[3..];
      } else if |ext| > 1 && ext[0] == '+' && G.IsDigits(ext[1..]) {
        b.extPhone := ext[1..];
      } else if G.IsDigits(ext) {
        // A number that is empty or does not fit 64 bits is not read.
        if ext == "" || G.Number(ext) >= 0x8000_0000_0000_0000 {
          valid := false;
        } else {
          b.userId := G.Number(ext);
        }
      } else {
        valid := false;
      }
      if valid {
        AnswerSip(b, a);
      } else {
        Fail(b, G.BAD_EXTENSION);
      }
    }

    method Refuse(b: Bridge, e: G.TgError, a: G.Answers)
      modifies `internalEvents, `blockUntil
      ensures World(b) == G.Refuse(old(World(b)), e, a)
    {
      Fail(b, G.SERVER_ERROR);
      match e
      case TooManyRequests(seconds) => blockUntil := a.now + (seconds + a.extraWaitTime);
      case PeerFlood => blockUntil := a.now + a.peerFloodTime;
      case OtherError =>
    }

    method DialById(b: Bridge, user: int, a: G.Answers)
      modifies b`tg, `log, `calls, `internalEvents, `blockUntil
      ensures World(b) == G.DialById(old(World(b)), user, a)
    {
      calls := calls + [G.Call(b.extUsername, b.extPhone, user)];
      match a.createCall
      case Refused(e) => Refuse(b, e, a);
      case Replied(id) => StoreTgId(b, id);
    }

    method DialByPhone(b: Bridge, a: G.Answers)
      modifies b`tg, `log, `calls, `internalEvents, `blockUntil, `phoneCache
      ensures World(b) == G.DialByPhone(old(World(b)), a)
    {
      if b.extPhone in phoneCache {
        DialById(b, phoneCache[b.extPhone], a);
        return;
      }
      match a.importContact
      case Refused(e) => Refuse(b, e, a);
      case Replied(user) =>
        if user == 0 {
          Fail(b, G.NOT_FOUND);
          return;
        }
        phoneCache := phoneCache[b.extPhone := user];
        DialById(b, user, a);
    }

    method DialByUsername(b: Bridge, a: G.Answers)
      modifies b`tg, `log, `calls, `internalEvents, `blockUntil, `usernameCache
      ensures World(b) == G.DialByUsername(old(World(b)), a)
    {
      if b.extUsername in usernameCache {
        DialById(b, usernameCache[b.extUsername], a);
        return;
      }
      match a.searchChat
      case Refused(e) => Refuse(b, e, a);
      case Replied(chat) =>
        if !a.chatIsPrivate {
          Fail(b, G.SERVER_ERROR);
          return;
        }
        usernameCache := usernameCache[b.extUsername := chat];
        DialById(b, chat, a);
    }

    method DialTg(b: Bridge, a: G.Answers)
      modifies b`tg, `log, `calls, `internalEvents, `blockUntil, `phoneCache, `usernameCache
      ensures World(b) == G.DialTg(old(World(b)), a)
    {
      if blockUntil > a.now {
        Fail(b, G.SERVER_ERROR);
      } else if b.extUsername != "" {
        DialByUsername(b, a);
      } else if b.extPhone != "" {
        DialByPhone(b, a);
      } else {
        DialById(b, b.userId, a);
      }
    }

    // ----- the state machine of a bridge -----

    method OnUpdateCall(b: Bridge, e: G.Event, a: G.Answers)
      requires e.UpdateCall?
      modifies b, `log, `internalEvents
      ensures World(b) == G.OnUpdateCall(old(World(b)), e, a)
    {
      hide G.CleanUp;
      var over := e.tgState == G.Discarded || e.tgState == G.Error;
      if b.phase == G.Init {
        if !e.incoming || e.tgState != G.Pending {
          Finish(b);
        } else if a.callbackUriSet {
          StoreTgId(b, e.id);
          b.userId := e.userId;
          DialSip(b, a);
          b.phase := G.CameFromTg(G.TgSipWaitMedia);
        } else {
          StoreTgId(b, e.id);
          Finish(b);
        }
      } else if b.phase == G.CameFromTg(G.TgWaitTg) && e.tgState == G.Ready {
        b.controller := true;
        BridgeAudio(b, a);
        b.phase := G.CameFromTg(G.TgWaitDtmf);
      } else if b.phase == G.CameFromSip(G.SipWaitTg) && e.tgState == G.Ready {
        b.userId := e.userId;
        b.controller := true;
        AnswerSip(b, a);
        b.phase := G.CameFromSip(G.SipWaitMedia);
      } else if b.phase != G.X && over {
        CleanTgId(b);
        Finish(b);
      }
    }

    method OnIncomingCall(b: Bridge, e: G.Event, a: G.Answers)
      requires e.IncomingCall?
      modifies b, `log, `internalEvents
      ensures World(b) == G.OnIncomingCall(old(World(b)), e, a)
    {
      hide G.AcceptIncomingSip;
      if b.phase == G.Init {
        StoreSipId(b, e.id);
        AcceptIncomingSip(b, e.extension, a);
        b.phase := G.CameFromSip(G.SipWaitConfirm);
      }
    }

    method OnCallState(b: Bridge, e: G.Event, a: G.Answers)
      requires e.CallStateUpdate?
      modifies b, `log, `calls, `internalEvents, `blockUntil, `phoneCache, `usernameCache
      ensures World(b) == G.OnCallState(old(World(b)), e, a)
    {
      hide G.CleanUp, G.DialTg;
      if b.phase == G.Init {
        Finish(b);
      } else if b.phase == G.CameFromSip(G.SipWaitConfirm) && e.sipState == G.Early {
        DialTg(b, a);
        b.phase := G.CameFromSip(G.SipWaitTg);
      } else if b.phase != G.X && e.sipState == G.Disconnected {
        CleanSipId(b);
        Finish(b);
      }
    }

    method OnCallMediaState(b: Bridge, e: G.Event, a: G.Answers)
      requires e.CallMediaStateUpdate?
      modifies b, `log, `internalEvents
      ensures World(b) == G.OnCallMediaState(old(World(b)), e, a)
    {
      if b.phase == G.Init {
        Finish(b);
      } else if b.phase == G.CameFromTg(G.TgSipWaitMedia) && e.hasMedia {
        AnswerTg(b, a);
        b.phase := G.CameFromTg(G.TgWaitTg);
      } else if b.phase == G.CameFromSip(G.SipWaitMedia) && e.hasMedia {
        BridgeAudio(b, a);
        b.phase := G.CameFromSip(G.SipWaitDtmf);
      }
    }

    method OnInternalError(b: Bridge, e: G.InternalError)
      modifies b, `log
      ensures World(b) == G.OnInternalError(old(World(b)), e)
    {
      if b.phase.CameFromTg? || b.phase.CameFromSip? {
        b.hangupCode := e.code;
        Finish(b);
      }
    }

    // ----- routing -----

    // The bridge an event is for, made if there is none.
    method SearchCall(e: G.Event) returns (i: nat)
      requires Wired()
      modifies this
      ensures Wired() && i == G.Find(old(Values()), e) && i < |bridges|
      ensures State() == G.SearchCall(old(State()), e)
      ensures bridges == old(bridges) || (bridges[..|bridges| - 1] == old(bridges) && fresh(bridges[|bridges| - 1]))
    {
      i := 0;
      while i < |bridges| && !(if e.UpdateCall? then bridges[i].tg == e.id else bridges[i].sip == e.id)
        invariant i <= |bridges| && forall k :: 0 <= k < i ==> !G.Matches(Values()[k], e)
      {
        i := i + 1;
      }
      FindIs(Values(), e, i);
      if i == |bridges| {
        counter := counter + 1;
        var b := new Bridge(counter);
        bridges := bridges + [b];
        assert Values() == old(Values()) + [b.Value()];
      }
    }

    // A bridge that reached X is deleted.
    method Forget(i: nat, ghost before: seq<G.Context>)
      requires Wired() && i < |bridges| && |before| == |bridges|
      requires forall k :: 0 <= k < |bridges| && k != i ==> Values()[k] == before[k]
      modifies `bridges
      ensures Wired() && forall k :: 0 <= k < |bridges| ==> bridges[k] in old(bridges)
      ensures Values() == if old(bridges[i].phase) == G.X then before[..i] + before[i + 1..]
                          else before[i := old(bridges[i].Value())]
    {
      if bridges[i].phase == G.X {
        bridges := bridges[..i] + bridges[i + 1..];
        assert Values() == before[..i] + before[i + 1..];
      } else {
        assert Values() == before[i := bridges[i].Value()];
      }
    }

    method Dispatch(b: Bridge, e: G.Event, a: G.Answers)
      modifies b, `log, `calls, `internalEvents, `blockUntil, `phoneCache, `usernameCache
      ensures World(b) == G.React(old(World(b)), e, a)
    {
      hide G.OnUpdateCall, G.OnIncomingCall, G.OnCallState, G.OnCallMediaState;
      match e
      case UpdateCall(_, _, _, _) => OnUpdateCall(b, e, a);
      case IncomingCall(_, _) => OnIncomingCall(b, e, a);
      case CallStateUpdate(_, _) => OnCallState(b, e, a);
      case CallMediaStateUpdate(_, _) => OnCallMediaState(b, e, a);
    }

    method DispatchAt(i: nat, e: G.Event, a: G.Answers)
      requires Wired() && i < |bridges|
      modifies this, bridges[i]
      ensures Wired() && State() == G.Store(old(State()), i, G.React(G.At(old(State()), i), e, a))
      ensures forall k :: 0 <= k < |bridges| ==> bridges[k] in old(bridges)
    {
      hide G.React;
      ghost var st := State();
      assert World(bridges[i]) == G.At(st, i);
      assert forall k :: 0 <= k < |bridges| && k != i ==> bridges[k] != bridges[i];
      Dispatch(bridges[i], e, a);
      assert forall k :: 0 <= k < |bridges| && k != i ==> Values()[k] == st.bridges[k];
      Forget(i, st.bridges);
    }

    // The ids that dialing returns are those of new calls.
    method ProcessEvent(e: G.Event, a: G.Answers)
      requires Valid() && R.IsFresh(State(), e, a)
      modifies this, bridges
      ensures Valid() && State() == G.Handle(old(State()), e, a)
      ensures forall k :: 0 <= k < |bridges| ==> bridges[k] in old(bridges) || fresh(bridges[k])
    {
      hide G.React, G.Find, G.SearchCall, G.Store, R.Inv, R.IsFresh;
      R.HandleKeepsInv(State(), e, a);
      var i := SearchCall(e);
      DispatchAt(i, e, a);
    }

    // The first bridge with this id, if it still exists.
    method FindBridge(id: nat) returns (i: nat)
      ensures i == G.FindContext(Values(), id) && i <= |bridges|
    {
      i := 0;
      while i < |bridges| && bridges[i].id != id
        invariant i <= |bridges| && forall k :: 0 <= k < i ==> Values()[k].id != id
      {
        i := i + 1;
      }
      FindContextIs(Values(), id, i);
    }

    method DispatchError(i: nat, e: G.InternalError)
      requires Wired() && i < |bridges|
      modifies this, bridges[i]
      ensures Wired() && State() == G.Store(old(State()), i, G.OnInternalError(G.At(old(State()), i), e))
      ensures forall k :: 0 <= k < |bridges| ==> bridges[k] in old(bridges)
    {
      hide G.OnInternalError;
      ghost var st := State();
      assert World(bridges[i]) == G.At(st, i);
      assert forall k :: 0 <= k < |bridges| && k != i ==> bridges[k] != bridges[i];
      OnInternalError(bridges[i], e);
      assert forall k :: 0 <= k < |bridges| && k != i ==> Values()[k] == st.bridges[k];
      Forget(i, st.bridges);
    }

    // One pop of the internal queue; an error for a bridge that is gone is dropped.
    method ProcessInternal()
      requires Valid()
      modifies this, bridges
      ensures Valid() && State() == G.HandleInternal(old(State()))
      ensures forall k :: 0 <= k < |bridges| ==> bridges[k] in old(bridges)
    {
      hide G.OnInternalError, G.FindContext, G.HandleInternal, G.Store, R.Inv;
      ghost var start := State();
      R.HandleInternalKeepsInv(start);
      if internalEvents == [] {
        PopIs(start);
        return;
      }
      var e := internalEvents[0];
      internalEvents := internalEvents[1..];
      assert Values() == start.bridges;
      var i := FindBridge(e.contextId);
      PopIs(start);
      assert State() == start.(s := start.s.(errors := start.s.errors[1..]));
      if i < |bridges| {
        DispatchError(i, e);
      }
    }

    // One round of the main loop: at most one event of each queue, in this order.
    method Round(tgEvent: Option<G.Event>, sipEvent: Option<G.Event>, a: G.Answers, b: G.Answers)
      requires Valid()
      requires var st := G.HandleInternal(State());
        && (tgEvent.Some? ==> R.IsFresh(st, tgEvent.value, a))
        && (sipEvent.Some? ==> R.IsFresh(if tgEvent.Some? then G.Handle(st, tgEvent.value, a) else st, sipEvent.value, b))
      modifies this, bridges
      ensures Valid()
      ensures var st := G.HandleInternal(old(State()));
        var st := if tgEvent.Some? then G.Handle(st, tgEvent.value, a) else st;
        State() == if sipEvent.Some? then G.Handle(st, sipEvent.value, b) else st
    {
      hide G.Handle, G.HandleInternal, R.Inv, R.IsFresh;
      ProcessInternal();
      if tgEvent.Some? {
        ProcessEvent(tgEvent.value, a);
      }
      if sipEvent.Some? {
        ProcessEvent(sipEvent.value, b);
      }
    }
  }

  lemma HangsUpAll(hungUp: multiset<G.CallId>, c: G.Context)
    ensures var after := if c.tg != G.NO_TG then hungUp + multiset{G.TG(c.tg)} else hungUp;
      (if c.sip != G.NO_SIP then after + multiset{G.SIP(c.sip)} else after) == hungUp + G.Held(c)
  {
  }

  lemma FindIs(bridges: seq<G.Context>, e: G.Event, i: nat)
    requires i <= |bridges| && forall k :: 0 <= k < i ==> !G.Matches(bridges[k], e)
    requires i < |bridges| ==> G.Matches(bridges[i], e)
    ensures i == G.Find(bridges, e)
  {
  }

  lemma PopIs(st: G.State)
    ensures st.s.errors == [] ==> G.HandleInternal(st) == st
    ensures st.s.errors != [] ==>
      var e, popped := st.s.errors[0], st.(s := st.s.(errors := st.s.errors[1..]));
      var i := G.FindContext(st.bridges, e.contextId);
      G.HandleInternal(st) ==
        if i < |st.bridges| then G.Store(popped, i, G.OnInternalError(G.At(popped, i), e)) else popped
  {
  }

  lemma FindContextIs(bridges: seq<G.Context>, id: nat, i: nat)
    requires i <= |bridges| && forall k :: 0 <= k < i ==> bridges[k].id != id
    requires i < |bridges| ==> bridges[i].id == id
    ensures i == G.FindContext(bridges, id)
  {
  }
}
