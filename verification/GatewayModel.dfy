// The call state machine of the gateway, as functions: what each transition and each action
// does to one bridge and to what all bridges share.
module GatewayModel {
  import opened Options

  const NO_TG := 0
  const NO_SIP := -1

  // The states of the machines for calls that came from Telegram and from SIP; X is final.
  datatype FromTg = TgSipWaitMedia | TgWaitTg | TgWaitDtmf
  datatype FromSip = SipWaitConfirm | SipWaitTg | SipWaitMedia | SipWaitDtmf
  datatype Phase = Init | CameFromTg(tgPhase: FromTg) | CameFromSip(sipPhase: FromSip) | X

  datatype Context = Context(
    id: nat, phase: Phase, tg: int, sip: int, controller: bool,
    extUsername: string, extPhone: string, userId: int, hangupCode: nat)

  datatype InternalError = InternalError(contextId: nat, code: nat)

  // A call that Telegram was asked for: the extension that was dialed, and the user called.
  datatype Call = Call(username: string, phone: string, user: int)

  // What the bridges share.
  datatype Shared = Shared(
    errors: seq<InternalError>, usernames: map<string, int>, phones: map<string, int>, blockUntil: int,
    calls: seq<Call>)

  datatype CallId = TG(n: int) | SIP(n: int)

  // Ids that bridges took on, that their own side reported as ended, and that were hung up.
  datatype Log = Log(taken: multiset<CallId>, ended: multiset<CallId>, hungUp: multiset<CallId>)

  datatype World = World(c: Context, s: Shared, log: Log)

  datatype TgState = Pending | Ready | Discarded | Error | OtherTg
  datatype SipState = Early | Disconnected | OtherSip

  datatype Event =
    | UpdateCall(id: int, incoming: bool, tgState: TgState, userId: int)
    | IncomingCall(id: int, extension: string)
    | CallStateUpdate(id: int, sipState: SipState)
    | CallMediaStateUpdate(id: int, hasMedia: bool)

  // How requests to the outside are answered.
  datatype TgError = TooManyRequests(retryAfter: int) | PeerFlood | OtherError
  datatype Reply = Refused(error: TgError) | Replied(value: int)
  datatype Answers = Answers(
    now: int, callbackUriSet: bool, sipDial: Option<int>, sipAnswer: bool, bridgeAudio: bool,
    tgAccept: bool, createCall: Reply, importContact: Reply, searchChat: Reply, chatIsPrivate: bool,
    extraWaitTime: int, peerFloodTime: int)

  const SERVER_ERROR := 500
  const NOT_FOUND := 404
  const BAD_EXTENSION := 420

  function NewContext(id: nat): Context {
    Context(id, Init, NO_TG, NO_SIP, false, "", "", 0, 0)
  }

  // ----- actions -----

  function Fail(w: World, code: nat): World {
    w.(s := w.s.(errors := w.s.errors + [InternalError(w.c.id, code)]))
  }

  function TakeTg(w: World, id: int): World {
    w.(c := w.c.(tg := id), log := w.log.(taken := w.log.taken + multiset{TG(id)}))
  }

  function TakeSip(w: World, id: int): World {
    w.(c := w.c.(sip := id), log := w.log.(taken := w.log.taken + multiset{SIP(id)}))
  }

  function CleanTgId(w: World): World {
    w.(c := w.c.(tg := NO_TG), log := w.log.(ended := w.log.ended + multiset{TG(w.c.tg)}))
  }

  function CleanSipId(w: World): World {
    w.(c := w.c.(sip := NO_SIP), log := w.log.(ended := w.log.ended + multiset{SIP(w.c.sip)}))
  }

  function DialSip(w: World, a: Answers): World {
    match a.sipDial
    case Some(id) => TakeSip(w, id)
    case None => Fail(w, SERVER_ERROR)
  }

  function AnswerTg(w: World, a: Answers): World {
    if a.tgAccept then w else Fail(w, SERVER_ERROR)
  }

  function AnswerSip(w: World, a: Answers): World {
    if a.sipAnswer then w else Fail(w, SERVER_ERROR)
  }

  function CreateTgVoip(w: World): World {
    w.(c := w.c.(controller := true))
  }

  function BridgeAudio(w: World, a: Answers): World {
    if a.bridgeAudio then w else Fail(w, SERVER_ERROR)
  }

  predicate IsDigits(s: string) {
    forall i :: 0 <= i < |s| ==> '0' <= s[i] <= '9'
  }

  function Number(s: string): nat
    requires IsDigits(s)
  {
    if s == "" then 0 else 10 * Number(s[..|s| - 1]) + (s[|s| - 1] - '0') as nat
  }

  function AcceptIncomingSip(w: World, ext: string, a: Answers): World {
    if |ext| > 3 && ext[..3] == "tg#" then AnswerSip(w.(c := w.c.(extUsername := ext[3..])), a)
    else if |ext| > 1 && ext[0] == '+' && IsDigits(ext[1..]) then AnswerSip(w.(c := w.c.(extPhone := ext[1..])), a)
    else if IsDigits(ext) && ext != "" && Number(ext) < 0x8000_0000_0000_0000 then
      AnswerSip(w.(c := w.c.(userId := Number(ext))), a)
    else Fail(w, BAD_EXTENSION)
  }

  function ParseError(s: Shared, e: TgError, a: Answers): Shared {
    match e
    case TooManyRequests(seconds) => s.(blockUntil := a.now + seconds + a.extraWaitTime)
    case PeerFlood => s.(blockUntil := a.now + a.peerFloodTime)
    case OtherError => s
  }

  function Refuse(w: World, e: TgError, a: Answers): World {
    var w := Fail(w, SERVER_ERROR);
    w.(s := ParseError(w.s, e, a))
  }

  function DialById(w: World, user: int, a: Answers): World {
    var w := w.(s := w.s.(calls := w.s.calls + [Call(w.c.extUsername, w.c.extPhone, user)]));
    match a.createCall
    case Refused(e) => Refuse(w, e, a)
    case Replied(id) => TakeTg(w, id)
  }

  function DialByPhone(w: World, a: Answers): World {
    if w.c.extPhone in w.s.phones then DialById(w, w.s.phones[w.c.extPhone], a)
    else
      match a.importContact
      case Refused(e) => Refuse(w, e, a)
      case Replied(user) =>
        if user == 0 then Fail(w, NOT_FOUND)
        else DialById(w.(s := w.s.(phones := w.s.phones[w.c.extPhone := user])), user, a)
  }

  function DialByUsername(w: World, a: Answers): World {
    if w.c.extUsername in w.s.usernames then DialById(w, w.s.usernames[w.c.extUsername], a)
    else
      match a.searchChat
      case Refused(e) => Refuse(w, e, a)
      case Replied(chat) =>
        if !a.chatIsPrivate then Fail(w, SERVER_ERROR)
        else DialById(w.(s := w.s.(usernames := w.s.usernames[w.c.extUsername := chat])), chat, a)
  }

  function DialTg(w: World, a: Answers): World {
    if w.s.blockUntil > a.now then Fail(w, SERVER_ERROR)
    else if w.c.extUsername != "" then DialByUsername(w, a)
    else if w.c.extPhone != "" then DialByPhone(w, a)
    else DialById(w, w.c.userId, a)
  }

  function CleanUp(w: World): World {
    var ids := Held(w.c);
    w.(c := w.c.(tg := NO_TG, sip := NO_SIP), log := w.log.(hungUp := w.log.hungUp + ids))
  }

  function To(w: World, phase: Phase): World {
    w.(c := w.c.(phase := phase))
  }

  // Entering X cleans up.
  function Finish(w: World): World {
    CleanUp(To(w, X))
  }

  // ----- the transition tables -----

  function OnUpdateCall(w: World, e: Event, a: Answers): World
    requires e.UpdateCall?
  {
    var over := e.tgState == Discarded || e.tgState == Error;
    match w.c.phase
    case Init =>
      if e.incoming && e.tgState == Pending then
        if a.callbackUriSet then
          var w := TakeTg(w, e.id);
          To(DialSip(w.(c := w.c.(userId := e.userId)), a), CameFromTg(TgSipWaitMedia))
        else Finish(TakeTg(w, e.id))
      else Finish(w)
    case CameFromTg(phase) =>
      if phase == TgWaitTg && e.tgState == Ready then To(BridgeAudio(CreateTgVoip(w), a), CameFromTg(TgWaitDtmf))
      else if over then Finish(CleanTgId(w))
      else w
    case CameFromSip(phase) =>
      if phase == SipWaitTg && e.tgState == Ready then
        To(AnswerSip(CreateTgVoip(w.(c := w.c.(userId := e.userId))), a), CameFromSip(SipWaitMedia))
      else if over then Finish(CleanTgId(w))
      else w
    case X => w
  }

  function OnIncomingCall(w: World, e: Event, a: Answers): World
    requires e.IncomingCall?
  {
    if w.c.phase == Init then To(AcceptIncomingSip(TakeSip(w, e.id), e.extension, a), CameFromSip(SipWaitConfirm)) else w
  }

  function OnCallState(w: World, e: Event, a: Answers): World
    requires e.CallStateUpdate?
  {
    match w.c.phase
    case Init => Finish(w)
    case CameFromTg(_) => if e.sipState == Disconnected then Finish(CleanSipId(w)) else w
    case CameFromSip(phase) =>
      if phase == SipWaitConfirm && e.sipState == Early then To(DialTg(w, a), CameFromSip(SipWaitTg))
      else if e.sipState == Disconnected then Finish(CleanSipId(w))
      else w
    case X => w
  }

  function OnCallMediaState(w: World, e: Event, a: Answers): World
    requires e.CallMediaStateUpdate?
  {
    match w.c.phase
    case Init => Finish(w)
    case CameFromTg(phase) =>
      if phase == TgSipWaitMedia && e.hasMedia then To(AnswerTg(w, a), CameFromTg(TgWaitTg)) else w
    case CameFromSip(phase) =>
      if phase == SipWaitMedia && e.hasMedia then To(BridgeAudio(w, a), CameFromSip(SipWaitDtmf)) else w
    case X => w
  }

  function OnInternalError(w: World, e: InternalError): World {
    if w.c.phase.CameFromTg? || w.c.phase.CameFromSip? then Finish(w.(c := w.c.(hangupCode := e.code))) else w
  }

  function React(w: World, e: Event, a: Answers): World {
    match e
    case UpdateCall(_, _, _, _) => OnUpdateCall(w, e, a)
    case IncomingCall(_, _) => OnIncomingCall(w, e, a)
    case CallStateUpdate(_, _) => OnCallState(w, e, a)
    case CallMediaStateUpdate(_, _) => OnCallMediaState(w, e, a)
  }

  // The ids a bridge holds.
  function Held(c: Context): multiset<CallId> {
    (if c.tg != NO_TG then multiset{TG(c.tg)} else multiset{})
    + (if c.sip != NO_SIP then multiset{SIP(c.sip)} else multiset{})
  }

  // ----- the gateway -----

  datatype State = State(bridges: seq<Context>, s: Shared, log: Log, counter: nat)

  const NO_LOG := Log(multiset{}, multiset{}, multiset{})

  function Start(usernames: map<string, int>, phones: map<string, int>, now: int): State {
    State([], Shared([], usernames, phones, now, []), NO_LOG, 0)
  }

  predicate Matches(c: Context, e: Event) {
    if e.UpdateCall? then c.tg == e.id else c.sip == e.id
  }

  // The first bridge the event is for.
  function Find(bridges: seq<Context>, e: Event): (i: nat)
    ensures i <= |bridges| && forall k :: 0 <= k < i ==> !Matches(bridges[k], e)
    ensures i < |bridges| ==> Matches(bridges[i], e)
  {
    if bridges == [] || Matches(bridges[0], e) then 0 else 1 + Find(bridges[1..], e)
  }

  function FindContext(bridges: seq<Context>, id: nat): (i: nat)
    ensures i <= |bridges| && forall k :: 0 <= k < i ==> bridges[k].id != id
    ensures i < |bridges| ==> bridges[i].id == id
  {
    if bridges == [] || bridges[0].id == id then 0 else 1 + FindContext(bridges[1..], id)
  }

  // A bridge that reached X is deleted.
  function Store(st: State, i: nat, w: World): State
    requires i < |st.bridges|
  {
    st.(bridges := if w.c.phase == X then st.bridges[..i] + st.bridges[i + 1..] else st.bridges[i := w.c],
        s := w.s, log := w.log)
  }

  function At(st: State, i: nat): World
    requires i < |st.bridges|
  {
    World(st.bridges[i], st.s, st.log)
  }

  function SearchCall(st: State, e: Event): State {
    if Find(st.bridges, e) < |st.bridges| then st
    else st.(bridges := st.bridges + [NewContext(st.counter + 1)], counter := st.counter + 1)
  }

  function Handle(st: State, e: Event, a: Answers): State {
    var i, st := Find(st.bridges, e), SearchCall(st, e);
    Store(st, i, React(At(st, i), e, a))
  }

  // One pop of the internal queue.
  function HandleInternal(st: State): State {
    if st.s.errors == [] then st
    else
      var e, st := st.s.errors[0], st.(s := st.s.(errors := st.s.errors[1..]));
      var i := FindContext(st.bridges, e.contextId);
      if i < |st.bridges| then Store(st, i, OnInternalError(At(st, i), e)) else st
  }
}
