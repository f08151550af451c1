/** The protocol by which callers obtain the gateway of a source (gps/source.go,
  getSourceGatewayFor).  A state is what all callers share, with the place each call has come to;
  a step is what one call does alone, between two points where others may come in: to take or to
  release a lock, and what it does while it holds one. */
module SourceGateway {
  import opened Versions

  type Name = string
  type Url = string
  type Tid = nat
  type Gate = nat

  datatype Result = Got(g: Gate) | Failed(err: string)

  /** Where a call is.  Lookup holds the read lock, Upgrading to Unlocking the write lock, as does
    a Return that is marked so. */
  datatype Pc =
    | Begin
    | Lookup
    | Upgrade(url: Url)
    | Upgrading(url: Url)
    | Register
    | Waiting
    | Deduce
    | Recheck
    | Connect(g: Gate)
    | Publish(g: Gate, url: Url)
    | Writing(g: Gate, url: Url)
    | Inserting(g: Gate, url: Url)
    | Return(r: Result, locked: bool)
    | Unlocking(r: Result)
    | Done(r: Result)
    | Panicked

  /** A call, what has come to its return channel, and the call that sent it. */
  datatype Call = Call(name: Name, pc: Pc, inbox: Option<Result>, sender: Option<Tid>)

  datatype State = State(
    calls: map<Tid, Call>,
    writer: Option<Tid>,
    readers: set<Tid>,
    srcs: map<Url, Gate>,
    nameToURL: map<Name, Url>,
    protoSrcs: map<Name, seq<Tid>>,
    next: Gate)

  const START: State := State(map[], None, {}, map[], map[], map[], 0)

  /* ----- The steps ----- */

  function At(s: State, t: Tid, pc: Pc): State
    requires t in s.calls
  {
    s.(calls := s.calls[t := s.calls[t].(pc := pc)])
  }

  /** The gateway of a URL; there is a panic when there is none. */
  function Found(s: State, url: Url): Pc {
    if url in s.srcs then Done(Got(s.srcs[url])) else Panicked
  }

  function Names(m: map<Name, Url>, name: Name, folded: Name, raw: Url, url: Url): map<Name, Url> {
    var m1 := m[folded := url][url := url];
    if name == folded then m1 else m1[name := url][raw := url]
  }

  /** Sends the result to all that wait for the folded name. */
  function Sent(s: State, t: Tid, folded: Name, r: Result): State {
    var waiting := if folded in s.protoSrcs then s.protoSrcs[folded] else [];
    s.(calls := map u | u in s.calls ::
         if u in waiting then s.calls[u].(inbox := Some(r), sender := Some(t)) else s.calls[u],
       protoSrcs := s.protoSrcs - {folded})
  }

  predicate CanWrite(s: State) {
    s.writer.None? && s.readers == {}
  }

  /** The first part of a call: it looks for the name, as given and folded. */
  ghost predicate LookStep(s: State, t: Tid, f: Name, s': State)
    requires t in s.calls
  {
    var c := s.calls[t];
    match c.pc
    case Begin =>
      || (exists e :: s' == At(s, t, Done(Failed(e))))
      || (s.writer.None? && s' == At(s, t, Lookup).(readers := s.readers + {t}))
    case Lookup =>
      s' == At(s, t, LookedUp(s, c.name, f)).(readers := s.readers - {t})
    case Upgrade(url) =>
      CanWrite(s) && s' == At(s, t, Upgrading(url)).(writer := Some(t))
    case Upgrading(url) =>
      s' == At(s, t, Found(s, url)).(writer := None, nameToURL := s.nameToURL[c.name := url])
    case _ => false
  }

  /** The call joins those that wait for its folded name, or becomes the worker for it. */
  ghost predicate JoinStep(s: State, t: Tid, f: Name, s': State)
    requires t in s.calls
  {
    && s.calls[t].pc.Register?
    && s' == if f in s.protoSrcs then At(s, t, Waiting).(protoSrcs := s.protoSrcs[f := s.protoSrcs[f] + [t]])
             else At(s, t, Deduce).(protoSrcs := s.protoSrcs[f := []])
  }

  /** The worker deduces the source, looks again, and makes a gateway that finds its URL. */
  ghost predicate WorkStep(s: State, t: Tid, f: Name, s': State)
    requires t in s.calls
  {
    var c := s.calls[t];
    match c.pc
    case Deduce =>
      s' == At(s, t, Recheck) || exists e :: s' == At(s, t, Return(Failed(e), false))
    case Recheck =>
      s.writer.None? &&
      if f in s.nameToURL then
        var url := s.nameToURL[f];
        s' == At(s, t, if url in s.srcs then Return(Got(s.srcs[url]), false) else Panicked)
      else s' == At(s, t, Connect(s.next)).(next := s.next + 1)
    case Connect(g) =>
      (exists url :: s' == At(s, t, Publish(g, url))) || exists e :: s' == At(s, t, Return(Failed(e), false))
    case _ => false
  }

  /** The worker enters the gateway into the maps, unless another has come to the same URL. */
  ghost predicate PublishStep(fold: Name -> Name, s: State, t: Tid, f: Name, s': State)
    requires t in s.calls
  {
    var c := s.calls[t];
    match c.pc
    case Publish(g, url) =>
      CanWrite(s) && s' == At(s, t, Writing(g, url)).(writer := Some(t))
    case Writing(g, raw) =>
      var url := if f == c.name then raw else fold(raw);
      s' == At(s, t, Inserting(g, url)).(nameToURL := Names(s.nameToURL, c.name, f, raw, url))
    case Inserting(g, url) =>
      if url in s.srcs then s' == At(s, t, Return(Got(s.srcs[url]), true))
      else s' == At(s, t, Return(Got(g), true)).(srcs := s.srcs[url := g])
    case _ => false
  }

  /** The worker sends its result, and lets the name go. */
  ghost predicate ReturnStep(s: State, t: Tid, f: Name, s': State)
    requires t in s.calls
  {
    var pc := s.calls[t].pc;
    pc.Return? && s' == At(Sent(s, t, f, pc.r), t, if pc.locked then Unlocking(pc.r) else Done(pc.r))
  }

  ghost predicate EndStep(s: State, t: Tid, s': State)
    requires t in s.calls
  {
    var c := s.calls[t];
    || (c.pc.Waiting? && c.inbox.Some? && s' == At(s, t, Done(c.inbox.value)))
    || (c.pc.Unlocking? && s' == At(s, t, Done(c.pc.r)).(writer := None))
  }

  ghost predicate Step(fold: Name -> Name, s: State, t: Tid, s': State) {
    t in s.calls &&
    var f := fold(s.calls[t].name);
    || LookStep(s, t, f, s') || JoinStep(s, t, f, s') || WorkStep(s, t, f, s')
    || PublishStep(fold, s, t, f, s') || ReturnStep(s, t, f, s') || EndStep(s, t, s')
  }

  /** What a look at the names leads to, with the name as it is given or folded. */
  function LookedUp(s: State, name: Name, folded: Name): Pc {
    if name in s.nameToURL then Found(s, s.nameToURL[name])
    else if folded != name && folded in s.nameToURL then Upgrade(s.nameToURL[folded])
    else Register
  }

  ghost predicate NewCall(s: State, t: Tid, name: Name, s': State) {
    t !in s.calls && s' == s.(calls := s.calls[t := Call(name, Begin, None, None)])
  }

  ghost predicate Next(fold: Name -> Name, s: State, s': State) {
    (exists t :: Step(fold, s, t, s')) || (exists t, name :: NewCall(s, t, name, s'))
  }

  /** A run: any calls, in any interleaving. */
  ghost predicate Run(fold: Name -> Name, run: seq<State>) {
    run != [] && run[0] == START && forall i :: 0 < i < |run| ==> Next(fold, run[i - 1], run[i])
  }

  /* ----- What holds in every state ----- */

  predicate HoldsWrite(pc: Pc) {
    pc.Upgrading? || pc.Writing? || pc.Inserting? || (pc.Return? && pc.locked) || pc.Unlocking?
  }

  predicate Works(pc: Pc) {
    pc.Deduce? || pc.Recheck? || pc.Connect? || pc.Publish? || pc.Writing? || pc.Inserting? || pc.Return?
  }

  ghost predicate LocksOk(s: State) {
    && (forall t :: t in s.calls ==> (s.writer == Some(t) <==> HoldsWrite(s.calls[t].pc)))
    && (forall t :: t in s.calls ==> (t in s.readers <==> s.calls[t].pc.Lookup?))
    && (forall t :: t in s.readers ==> t in s.calls)
    && (s.writer.Some? ==> s.writer.value in s.calls && s.readers == {})
  }

  /** The URL is about to be given a gateway, under the write lock. */
  ghost predicate Coming(s: State, url: Url) {
    && s.writer.Some? && s.writer.value in s.calls
    && s.calls[s.writer.value].pc.Inserting? && s.calls[s.writer.value].pc.url == url
  }

  ghost predicate MapsOk(s: State) {
    && (forall n :: n in s.nameToURL ==> s.nameToURL[n] in s.srcs || Coming(s, s.nameToURL[n]))
    && (forall t :: t in s.calls && (s.calls[t].pc.Upgrade? || s.calls[t].pc.Upgrading?) ==>
          s.calls[t].pc.url in s.srcs)
    && (forall t :: t in s.calls ==> !s.calls[t].pc.Panicked?)
  }

  ghost predicate Worker(fold: Name -> Name, s: State, t: Tid, f: Name) {
    t in s.calls && Works(s.calls[t].pc) && fold(s.calls[t].name) == f
  }

  ghost predicate WorkersOk(fold: Name -> Name, s: State) {
    && (forall t, f :: Worker(fold, s, t, f) ==> f in s.protoSrcs)
    && (forall t, u, f :: Worker(fold, s, t, f) && Worker(fold, s, u, f) ==> t == u)
    && (forall f :: f in s.protoSrcs ==> exists t :: Worker(fold, s, t, f))
  }

  predicate Awaits(s: State, t: Tid) {
    t in s.calls && s.calls[t].pc.Waiting? && s.calls[t].inbox.None?
  }

  ghost predicate WaitersOk(fold: Name -> Name, s: State) {
    && (forall f, t :: f in s.protoSrcs && t in s.protoSrcs[f] ==> Awaits(s, t) && fold(s.calls[t].name) == f)
    && (forall f, i, j :: f in s.protoSrcs && 0 <= i < j < |s.protoSrcs[f]| ==> s.protoSrcs[f][i] != s.protoSrcs[f][j])
    && (forall t :: Awaits(s, t) ==> fold(s.calls[t].name) in s.protoSrcs && t in s.protoSrcs[fold(s.calls[t].name)])
  }

  /** The call has its result from the worker u of its folded name, or has sent for it. */
  ghost predicate Served(fold: Name -> Name, s: State, c: Call, u: Tid) {
    && c.inbox.Some? && (c.pc.Waiting? || c.pc == Done(c.inbox.value))
    && u in s.calls && fold(s.calls[u].name) == fold(c.name)
    && s.calls[u].inbox.None? && s.calls[u].pc in {Unlocking(c.inbox.value), Done(c.inbox.value)}
  }

  ghost predicate ServedOk(fold: Name -> Name, s: State) {
    forall t :: t in s.calls ==>
      if s.calls[t].sender.Some? then Served(fold, s, s.calls[t], s.calls[t].sender.value) else s.calls[t].inbox.None?
  }

  predicate Gives(pc: Pc, g: Gate) {
    (pc.Return? || pc.Unlocking? || pc.Done?) && pc.r == Got(g)
  }

  predicate Carries(pc: Pc, g: Gate) {
    (pc.Connect? || pc.Publish? || pc.Writing? || pc.Inserting?) && pc.g == g
  }

  /** Every gateway that is given is in the map. */
  ghost predicate GivenOk(s: State) {
    && (forall t, g: Gate :: t in s.calls && Gives(s.calls[t].pc, g) ==> g in s.srcs.Values)
    && (forall t, g: Gate :: t in s.calls && s.calls[t].inbox == Some(Got(g)) ==> g in s.srcs.Values)
  }

  /** It is there at one URL; those still carried are new. */
  ghost predicate GatesOk(s: State) {
    && (forall u :: u in s.srcs ==> s.srcs[u] < s.next)
    && (forall u, v :: u in s.srcs && v in s.srcs && s.srcs[u] == s.srcs[v] ==> u == v)
    && (forall t, g: Gate :: t in s.calls && Carries(s.calls[t].pc, g) ==>
          g < s.next && forall u :: u in s.srcs ==> s.srcs[u] != g)
    && (forall t, u, g: Gate :: t in s.calls && u in s.calls && Carries(s.calls[t].pc, g) && Carries(s.calls[u].pc, g) ==>
          t == u)
  }

  ghost predicate Inv(fold: Name -> Name, s: State) {
    LocksOk(s) && MapsOk(s) && WorkersOk(fold, s) && WaitersOk(fold, s) && ServedOk(fold, s) && GivenOk(s) && GatesOk(s)
  }

  /* ----- Every step keeps it ----- */

  /** A step that neither joins nor serves the callers of a name. */
  ghost predicate Quiet(s: State, t: Tid, s': State)
    requires t in s.calls
  {
    && t in s'.calls && s'.calls == At(s, t, s'.calls[t].pc).calls && s'.protoSrcs == s.protoSrcs
    && var pc, pc' := s.calls[t].pc, s'.calls[t].pc;
    && (Works(pc) <==> Works(pc')) && !pc'.Waiting?
    && (pc.Waiting? ==> s.calls[t].inbox.Some? && pc' == Done(s.calls[t].inbox.value))
    && (pc.Unlocking? ==> pc' == Done(pc.r)) && !pc.Done?
  }

  /** A step that changes nothing but where the call is, the locks, the names, and the supply of
    gateways. */
  lemma QuietTo(s: State, t: Tid, pc': Pc, s': State)
    requires t in s.calls && s'.calls == At(s, t, pc').calls && s'.srcs == s.srcs && s'.protoSrcs == s.protoSrcs
    requires s'.next == s.next || s'.next == s.next + 1
    requires var pc := s.calls[t].pc;
      && (Works(pc) <==> Works(pc')) && !pc'.Waiting? && !pc.Waiting? && !pc.Unlocking? && !pc.Done?
      && (forall g: Gate :: Carries(pc', g) ==> Carries(pc, g) || (g == s.next && s'.next == s.next + 1))
      && (forall g: Gate :: Gives(pc', g) ==> g in s.srcs.Values)
    ensures Quiet(s, t, s') && Moves(s, t, s')
  {
  }

  lemma FoundIsThere(s: State, url: Url)
    ensures !Works(Found(s, url)) && !Found(s, url).Waiting?
    ensures forall g: Gate :: !Carries(Found(s, url), g) && (Gives(Found(s, url), g) ==> g in s.srcs.Values)
  {
    if url in s.srcs { assert s.srcs[url] in s.srcs.Values; }
  }

  lemma LookIsQuiet(s: State, t: Tid, f: Name, s': State)
    requires t in s.calls && LookStep(s, t, f, s')
    ensures Quiet(s, t, s') && Moves(s, t, s')
  {
    hide Moves, Quiet, Found, CanWrite;
    var c := s.calls[t];
    if c.pc.Lookup? && c.name in s.nameToURL { FoundIsThere(s, s.nameToURL[c.name]); }
    if c.pc.Upgrading? { FoundIsThere(s, c.pc.url); }
    var pc' := s'.calls[t].pc;
    QuietTo(s, t, pc', s');
  }

  lemma WorkIsQuiet(s: State, t: Tid, f: Name, s': State)
    requires MapsOk(s) && t in s.calls && WorkStep(s, t, f, s')
    ensures Quiet(s, t, s') && Moves(s, t, s')
  {
    hide Moves, Quiet;
    assert s.calls[t].pc.Recheck? && f in s.nameToURL ==> s.srcs[s.nameToURL[f]] in s.srcs.Values;
    QuietTo(s, t, s'.calls[t].pc, s');
  }

  lemma PublishIsQuiet(fold: Name -> Name, s: State, t: Tid, f: Name, s': State)
    requires t in s.calls && PublishStep(fold, s, t, f, s')
    ensures Quiet(s, t, s') && Moves(s, t, s')
  {
    hide Names, CanWrite;
    var pc := s.calls[t].pc;
    if pc.Inserting? { assert s'.srcs[pc.url] in s'.srcs.Values; }
  }

  lemma EndIsQuiet(s: State, t: Tid, s': State)
    requires t in s.calls && EndStep(s, t, s')
    ensures Quiet(s, t, s') && Moves(s, t, s')
  {
  }

  lemma JoinMoves(s: State, t: Tid, f: Name, s': State)
    requires t in s.calls && JoinStep(s, t, f, s')
    ensures Moves(s, t, s')
  {
  }

  lemma ReturnMoves(s: State, t: Tid, f: Name, s': State)
    requires t in s.calls && ReturnStep(s, t, f, s')
    ensures Moves(s, t, s')
  {
  }

  lemma StepKinds(fold: Name -> Name, s: State, t: Tid, s': State)
    requires MapsOk(s) && Step(fold, s, t, s')
    ensures var f := fold(s.calls[t].name);
      Moves(s, t, s') && (Quiet(s, t, s') || JoinStep(s, t, f, s') || ReturnStep(s, t, f, s'))
  {
    hide LookStep, JoinStep, WorkStep, PublishStep, ReturnStep, EndStep, Moves, Quiet, MapsOk;
    var f := fold(s.calls[t].name);
    if LookStep(s, t, f, s') { LookIsQuiet(s, t, f, s'); }
    if JoinStep(s, t, f, s') { JoinMoves(s, t, f, s'); }
    if WorkStep(s, t, f, s') { WorkIsQuiet(s, t, f, s'); }
    if PublishStep(fold, s, t, f, s') { PublishIsQuiet(fold, s, t, f, s'); }
    if ReturnStep(s, t, f, s') { ReturnMoves(s, t, f, s'); }
    if EndStep(s, t, s') { EndIsQuiet(s, t, s'); }
  }

  lemma WorkersWhenQuiet(fold: Name -> Name, s: State, t: Tid, s': State)
    requires WorkersOk(fold, s) && t in s.calls && Quiet(s, t, s')
    ensures WorkersOk(fold, s')
  {
    forall u, g ensures Worker(fold, s', u, g) <==> Worker(fold, s, u, g) {}
    hide Worker;
  }

  lemma WorkersWhenJoined(fold: Name -> Name, s: State, t: Tid, f: Name, s': State)
    requires WorkersOk(fold, s) && t in s.calls && f == fold(s.calls[t].name) && JoinStep(s, t, f, s')
    ensures WorkersOk(fold, s')
  {
    forall u, g ensures Worker(fold, s', u, g) <==> Worker(fold, s, u, g) || (u == t && g == f && f !in s.protoSrcs) {}
    forall g | g in s'.protoSrcs ensures exists u :: Worker(fold, s', u, g) {
      if g in s.protoSrcs {
        var u :| Worker(fold, s, u, g);
        assert Worker(fold, s', u, g);
      } else {
        assert Worker(fold, s', t, g);
      }
    }
  }

  lemma WorkersWhenServed(fold: Name -> Name, s: State, t: Tid, f: Name, s': State)
    requires WorkersOk(fold, s) && t in s.calls && f == fold(s.calls[t].name) && ReturnStep(s, t, f, s')
    ensures WorkersOk(fold, s')
  {
    assert Worker(fold, s, t, f);
    forall u, g ensures Worker(fold, s', u, g) <==> Worker(fold, s, u, g) && u != t {}
    hide Worker;
    forall g | g in s'.protoSrcs ensures exists u :: Worker(fold, s', u, g) {
      var u :| Worker(fold, s, u, g);
      assert u != t ==> Worker(fold, s', u, g);
    }
  }

  lemma WaitersWhenQuiet(fold: Name -> Name, s: State, t: Tid, s': State)
    requires WaitersOk(fold, s) && t in s.calls && Quiet(s, t, s')
    ensures WaitersOk(fold, s')
  {
    forall u ensures Awaits(s, u) <==> Awaits(s', u) {}
  }

  lemma WaitersWhenJoined(fold: Name -> Name, s: State, t: Tid, s': State)
    requires WaitersOk(fold, s) && ServedOk(fold, s) && t in s.calls && JoinStep(s, t, fold(s.calls[t].name), s')
    ensures WaitersOk(fold, s')
  {
    hide ServedOk, Awaits, JoinStep;
    JoinAwaits(fold, s, t, s');
  }

  lemma JoinAwaits(fold: Name -> Name, s: State, t: Tid, s': State)
    requires ServedOk(fold, s) && t in s.calls && JoinStep(s, t, fold(s.calls[t].name), s')
    ensures forall u :: Awaits(s', u) <==> Awaits(s, u) || (u == t && fold(s.calls[t].name) in s.protoSrcs)
    ensures forall u :: Awaits(s, u) ==> u in s.calls
    ensures !Awaits(s, t) && s'.calls.Keys == s.calls.Keys
    ensures forall u :: u in s.calls ==> s'.calls[u].name == s.calls[u].name
    ensures var f := fold(s.calls[t].name);
      s'.protoSrcs == s.protoSrcs[f := if f in s.protoSrcs then s.protoSrcs[f] + [t] else []]
  {
    assert s.calls[t].inbox.None?;
  }

  lemma WaitersWhenServed(fold: Name -> Name, s: State, t: Tid, s': State)
    requires WaitersOk(fold, s) && t in s.calls && ReturnStep(s, t, fold(s.calls[t].name), s')
    ensures WaitersOk(fold, s')
  {
    var f := fold(s.calls[t].name);
    forall u ensures Awaits(s', u) <==> Awaits(s, u) && fold(s.calls[u].name) != f {}
  }

  lemma ServedWhenSent(fold: Name -> Name, s: State, t: Tid, s': State)
    requires ServedOk(fold, s) && WaitersOk(fold, s) && t in s.calls && ReturnStep(s, t, fold(s.calls[t].name), s')
    ensures ServedOk(fold, s')
  {
    var f := fold(s.calls[t].name);
    forall u | u in s'.calls
      ensures
        if s'.calls[u].sender.Some? then Served(fold, s', s'.calls[u], s'.calls[u].sender.value)
        else s'.calls[u].inbox.None?
    {
      assert !Awaits(s, t);
      if f in s.protoSrcs && u in s.protoSrcs[f] {
        assert Awaits(s, u);
      } else if s.calls[u].sender.Some? {
        var w := s.calls[u].sender.value;
        assert Served(fold, s, s.calls[u], w);
        assert !Awaits(s, w);
      }
    }
  }

  lemma ServedOtherwise(fold: Name -> Name, s: State, t: Tid, s': State)
    requires ServedOk(fold, s) && t in s.calls && (Quiet(s, t, s') || JoinStep(s, t, fold(s.calls[t].name), s'))
    ensures ServedOk(fold, s')
  {
    forall u | u in s'.calls
      ensures
        if s'.calls[u].sender.Some? then Served(fold, s', s'.calls[u], s'.calls[u].sender.value)
        else s'.calls[u].inbox.None?
    {
      if s.calls[u].sender.Some? {
        assert Served(fold, s, s.calls[u], s.calls[u].sender.value);
      }
    }
  }

  /** Where gateways come from and go to. */
  ghost predicate Moves(s: State, t: Tid, s': State)
    requires t in s.calls
  {
    && s'.calls.Keys == s.calls.Keys
    && var pc, pc', inbox := s.calls[t].pc, s'.calls[t].pc, s.calls[t].inbox;
    && s.next <= s'.next
    && (forall u :: u in s.calls && u != t ==> s'.calls[u].pc == s.calls[u].pc)
    && (forall u, g :: u in s.calls && s'.calls[u].inbox == Some(Got(g)) ==>
          s.calls[u].inbox == Some(Got(g)) || Gives(pc, g))
    && (forall g: Gate :: Carries(pc', g) ==> Carries(pc, g) || (g == s.next && s'.next == s.next + 1))
    && (forall g: Gate :: Gives(pc', g) ==> Gives(pc, g) || inbox == Some(Got(g)) || g in s'.srcs.Values)
    && (|| s'.srcs == s.srcs
        || (pc.Inserting? && pc.url !in s.srcs && s'.srcs == s.srcs[pc.url := pc.g] && pc' == Return(Got(pc.g), true)))
  }

  lemma ValuesGrow(s: State, t: Tid, s': State, g: Gate)
    requires t in s.calls && Moves(s, t, s') && g in s.srcs.Values
    ensures g in s'.srcs.Values
  {
    var u :| u in s.srcs && s.srcs[u] == g;
    assert s'.srcs[u] == g;
  }

  lemma GivenStep(s: State, t: Tid, s': State)
    requires GivenOk(s) && t in s.calls && Moves(s, t, s')
    ensures GivenOk(s')
  {
    forall g | g in s.srcs.Values ensures g in s'.srcs.Values { ValuesGrow(s, t, s', g); }
    hide Gives;
  }

  lemma GatesStep(s: State, t: Tid, s': State)
    requires GatesOk(s) && t in s.calls && Moves(s, t, s')
    ensures GatesOk(s')
  {
    hide Gives;
    forall u | u in s'.srcs ensures (u in s.srcs && s'.srcs[u] == s.srcs[u]) || Carries(s.calls[t].pc, s'.srcs[u]) {}
  }

  /** What a step does to the locks. */
  ghost predicate LocksMove(s: State, t: Tid, s': State)
    requires t in s.calls
  {
    && s'.calls.Keys == s.calls.Keys
    && (forall u :: u in s.calls && u != t ==> s'.calls[u].pc == s.calls[u].pc)
    && var pc, pc' := s.calls[t].pc, s'.calls[t].pc;
    && s'.readers == (if pc'.Lookup? then s.readers + {t} else if pc.Lookup? then s.readers - {t} else s.readers)
    && s'.writer == (if HoldsWrite(pc') then Some(t) else if HoldsWrite(pc) then None else s.writer)
    && (HoldsWrite(pc') && !HoldsWrite(pc) ==> s.writer.None? && s.readers == {})
    && (pc'.Lookup? ==> s.writer.None? && !HoldsWrite(pc))
  }

  lemma LooksMoveLocks(s: State, t: Tid, f: Name, s': State)
    requires LocksOk(s) && t in s.calls && LookStep(s, t, f, s')
    ensures LocksMove(s, t, s')
  {
    hide LocksOk;
    CallHolds(s, t);
    assert !HoldsWrite(LookedUp(s, s.calls[t].name, f)) && !LookedUp(s, s.calls[t].name, f).Lookup?;
    assert forall url :: Found(s, url).Done? || Found(s, url).Panicked?;
    hide LookedUp, Found;
  }

  lemma CallHolds(s: State, t: Tid)
    requires LocksOk(s) && t in s.calls
    ensures (s.writer == Some(t) <==> HoldsWrite(s.calls[t].pc)) && (t in s.readers <==> s.calls[t].pc.Lookup?)
  {
  }

  /** A step that changes nothing that is shared, but the supply of gateways and who waits. */
  ghost predicate Alone(s: State, t: Tid, s': State)
    requires t in s.calls
  {
    && t in s'.calls && s' == At(s, t, s'.calls[t].pc).(next := s'.next, protoSrcs := s'.protoSrcs)
    && var pc, pc' := s.calls[t].pc, s'.calls[t].pc;
    && !HoldsWrite(pc) && !HoldsWrite(pc') && !pc.Lookup? && !pc'.Lookup?
    && !pc'.Panicked? && !pc'.Upgrade? && !pc'.Upgrading?
  }

  lemma NamesAreFound(s: State, f: Name)
    requires MapsOk(s) && s.writer.None?
    ensures f in s.nameToURL ==> s.nameToURL[f] in s.srcs
  {
  }

  lemma WorkIsAlone(s: State, t: Tid, f: Name, s': State)
    requires MapsOk(s) && t in s.calls && WorkStep(s, t, f, s')
    ensures Alone(s, t, s')
  {
    hide MapsOk;
    if s.calls[t].pc.Recheck? { NamesAreFound(s, f); }
    match s.calls[t].pc
    case Deduce => assert Alone(s, t, s');
    case Recheck => assert Alone(s, t, s');
    case Connect(g) => assert Alone(s, t, s');
  }

  lemma JoinIsAlone(s: State, t: Tid, f: Name, s': State)
    requires t in s.calls && JoinStep(s, t, f, s')
    ensures Alone(s, t, s')
  {
  }

  lemma WorkMovesLocks(s: State, t: Tid, s': State)
    requires t in s.calls && Alone(s, t, s')
    ensures LocksMove(s, t, s')
  {
  }

  lemma PublishMovesLocks(fold: Name -> Name, s: State, t: Tid, f: Name, s': State)
    requires LocksOk(s) && t in s.calls && PublishStep(fold, s, t, f, s')
    ensures LocksMove(s, t, s')
  {
  }

  lemma EndMovesLocks(s: State, t: Tid, f: Name, s': State)
    requires LocksOk(s) && t in s.calls && (EndStep(s, t, s') || ReturnStep(s, t, f, s'))
    ensures LocksMove(s, t, s')
  {
    assert s.writer == Some(t) <==> HoldsWrite(s.calls[t].pc);
    hide LocksOk;
  }

  lemma LocksStep(fold: Name -> Name, s: State, t: Tid, s': State)
    requires LocksOk(s) && t in s.calls && LocksMove(s, t, s')
    ensures LocksOk(s')
  {
  }

  lemma MapsLook(s: State, t: Tid, f: Name, s': State)
    requires LocksOk(s) && MapsOk(s) && t in s.calls && LookStep(s, t, f, s')
    ensures MapsOk(s')
  {
    assert s.calls[t].pc.Lookup? ==> s.writer.None?;
    assert forall url :: Coming(s', url) <==> Coming(s, url);
  }

  lemma MapsPublish(fold: Name -> Name, s: State, t: Tid, f: Name, s': State)
    requires LocksOk(s) && MapsOk(s) && t in s.calls && PublishStep(fold, s, t, f, s')
    ensures MapsOk(s')
  {
  }

  lemma MapsWork(s: State, t: Tid, s': State)
    requires LocksOk(s) && MapsOk(s) && t in s.calls && Alone(s, t, s')
    ensures MapsOk(s')
  {
    forall url ensures Coming(s', url) <==> Coming(s, url) {}
  }

  /** Neither step changes the maps, and the call was not about to insert. */
  lemma EndIsApart(s: State, t: Tid, f: Name, s': State)
    requires LocksOk(s) && t in s.calls && (ReturnStep(s, t, f, s') || EndStep(s, t, s'))
    ensures s'.nameToURL == s.nameToURL && s'.srcs == s.srcs && s'.calls.Keys == s.calls.Keys
    ensures forall u :: u in s.calls ==>
      s'.calls[u].pc == s.calls[u].pc || s'.calls[u].pc.Done? || s'.calls[u].pc.Unlocking?
    ensures forall url :: Coming(s, url) ==> Coming(s', url)
  {
    hide LocksOk;
    CallHolds(s, t);
  }

  lemma MapsEnd(s: State, t: Tid, f: Name, s': State)
    requires LocksOk(s) && MapsOk(s) && t in s.calls && (ReturnStep(s, t, f, s') || EndStep(s, t, s'))
    ensures MapsOk(s')
  {
    hide LocksOk, ReturnStep, EndStep, Coming;
    EndIsApart(s, t, f, s');
  }

  /* ----- All of it ----- */

  lemma StepKeepsInv(fold: Name -> Name, s: State, t: Tid, s': State)
    requires Inv(fold, s) && Step(fold, s, t, s')
    ensures Inv(fold, s') && t in s.calls && Moves(s, t, s')
  {
    hide LocksOk, MapsOk, WorkersOk, WaitersOk, ServedOk, GivenOk, GatesOk, Quiet, Moves;
    hide LookStep, JoinStep, WorkStep, PublishStep, ReturnStep, EndStep;
    var f := fold(s.calls[t].name);
    StepKinds(fold, s, t, s');
    StepKeepsLocksAndMaps(fold, s, t, s');
    GatesStep(s, t, s');
    GivenStep(s, t, s');
    if Quiet(s, t, s') {
      WorkersWhenQuiet(fold, s, t, s');
      WaitersWhenQuiet(fold, s, t, s');
      ServedOtherwise(fold, s, t, s');
    } else if JoinStep(s, t, f, s') {
      WorkersWhenJoined(fold, s, t, f, s');
      WaitersWhenJoined(fold, s, t, s');
      ServedOtherwise(fold, s, t, s');
    } else {
      WorkersWhenServed(fold, s, t, f, s');
      WaitersWhenServed(fold, s, t, s');
      ServedWhenSent(fold, s, t, s');
    }
  }

  lemma StepKeepsLocksAndMaps(fold: Name -> Name, s: State, t: Tid, s': State)
    requires LocksOk(s) && MapsOk(s) && Step(fold, s, t, s')
    ensures LocksOk(s') && MapsOk(s')
  {
    hide LocksOk, MapsOk, LookStep, JoinStep, WorkStep, PublishStep, ReturnStep, EndStep, LocksMove, Alone;
    var f := fold(s.calls[t].name);
    if LookStep(s, t, f, s') {
      LooksMoveLocks(s, t, f, s');
      MapsLook(s, t, f, s');
    } else if JoinStep(s, t, f, s') {
      JoinIsAlone(s, t, f, s');
      WorkMovesLocks(s, t, s');
      MapsWork(s, t, s');
    } else if WorkStep(s, t, f, s') {
      WorkIsAlone(s, t, f, s');
      WorkMovesLocks(s, t, s');
      MapsWork(s, t, s');
    } else if PublishStep(fold, s, t, f, s') {
      PublishMovesLocks(fold, s, t, f, s');
      MapsPublish(fold, s, t, f, s');
    } else {
      EndMovesLocks(s, t, f, s');
      MapsEnd(s, t, f, s');
    }
    LocksStep(fold, s, t, s');
  }

  lemma NewCallKeepsInv(fold: Name -> Name, s: State, t: Tid, name: Name, s': State)
    requires Inv(fold, s) && NewCall(s, t, name, s')
    ensures Inv(fold, s')
  {
    hide LocksOk, MapsOk, WorkersOk, WaitersOk, ServedOk, GivenOk, GatesOk;
    NewCallIsIdle(fold, s, t, name, s');
    NewCallHasNoLock(s, t, name, s');
    NewCallHasNothing(fold, s, t, name, s');
  }

  lemma NewCallIsIdle(fold: Name -> Name, s: State, t: Tid, name: Name, s': State)
    requires WorkersOk(fold, s) && WaitersOk(fold, s) && NewCall(s, t, name, s')
    ensures WorkersOk(fold, s') && WaitersOk(fold, s')
  {
    forall u, f ensures Worker(fold, s', u, f) <==> Worker(fold, s, u, f) {}
    forall u ensures Awaits(s', u) <==> Awaits(s, u) {}
    assert forall u :: u in s.calls ==> u in s'.calls && s'.calls[u] == s.calls[u];
    hide Worker, Awaits;
  }

  lemma NewCallHasNoLock(s: State, t: Tid, name: Name, s': State)
    requires LocksOk(s) && MapsOk(s) && NewCall(s, t, name, s')
    ensures LocksOk(s') && MapsOk(s')
  {
    forall url ensures Coming(s, url) ==> Coming(s', url) {}
    hide Coming;
  }

  lemma NewCallHasNothing(fold: Name -> Name, s: State, t: Tid, name: Name, s': State)
    requires ServedOk(fold, s) && GivenOk(s) && GatesOk(s) && NewCall(s, t, name, s')
    ensures ServedOk(fold, s') && GivenOk(s') && GatesOk(s')
  {
    forall u, g: Gate | u in s'.calls && (Gives(s'.calls[u].pc, g) || Carries(s'.calls[u].pc, g))
      ensures u in s.calls && s'.calls[u].pc == s.calls[u].pc
    {
    }
    hide Gives, Carries;
  }

  /* ----- Runs ----- */

  lemma NextKeepsInv(fold: Name -> Name, s: State, s': State)
    requires Inv(fold, s) && Next(fold, s, s')
    ensures Inv(fold, s')
  {
    hide Inv, Step, NewCall;
    if t :| Step(fold, s, t, s') {
      StepKeepsInv(fold, s, t, s');
    } else {
      var t, name :| NewCall(s, t, name, s');
      NewCallKeepsInv(fold, s, t, name, s');
    }
  }

  lemma RunNext(fold: Name -> Name, run: seq<State>, i: nat)
    requires Run(fold, run) && i < |run|
    ensures if i == 0 then run[i] == START else Next(fold, run[i - 1], run[i])
  {
  }

  lemma StartIsFine(fold: Name -> Name)
    ensures Inv(fold, START)
  {
  }

  /** Everything above holds in every state of every run. */
  lemma {:induction false} RunKeepsInv(fold: Name -> Name, run: seq<State>, i: nat)
    requires Run(fold, run) && i < |run|
    ensures Inv(fold, run[i])
  {
    hide Run, Inv, Next;
    RunNext(fold, run, i);
    if i > 0 {
      RunKeepsInv(fold, run, i - 1);
      NextKeepsInv(fold, run[i - 1], run[i]);
    } else {
      StartIsFine(fold);
    }
  }

  /** Whenever the lock is free every name leads to a URL with a gateway; nothing panics. */
  lemma NamesHaveGateways(fold: Name -> Name, run: seq<State>, i: nat, n: Name, t: Tid)
    requires Run(fold, run) && i < |run|
    ensures run[i].writer.None? && n in run[i].nameToURL ==> run[i].nameToURL[n] in run[i].srcs
    ensures t in run[i].calls ==> !run[i].calls[t].pc.Panicked?
  {
    RunKeepsInv(fold, run, i);
  }

  lemma NextKeepsGateways(fold: Name -> Name, s: State, s': State, url: Url)
    requires Inv(fold, s) && Next(fold, s, s') && url in s.srcs
    ensures url in s'.srcs && s'.srcs[url] == s.srcs[url]
  {
    hide Inv, Step;
    if t :| Step(fold, s, t, s') { StepKeepsInv(fold, s, t, s'); }
  }

  /** A gateway is never replaced. */
  lemma {:induction false} GatewaysStay(fold: Name -> Name, run: seq<State>, i: nat, j: nat, url: Url)
    requires Run(fold, run) && i <= j < |run| && url in run[i].srcs
    ensures url in run[j].srcs && run[j].srcs[url] == run[i].srcs[url]
    decreases j
  {
    hide Run, Inv, Next;
    if i < j {
      GatewaysStay(fold, run, i, j - 1, url);
      RunKeepsInv(fold, run, j - 1);
      RunNext(fold, run, j);
      NextKeepsGateways(fold, run[j - 1], run[j], url);
    }
  }

  /** There is one worker for a folded name as long as anyone works on it, and none otherwise. */
  lemma OneWorker(fold: Name -> Name, run: seq<State>, i: nat, f: Name)
    requires Run(fold, run) && i < |run|
    ensures f in run[i].protoSrcs <==> exists t :: Worker(fold, run[i], t, f)
    ensures forall t, u :: Worker(fold, run[i], t, f) && Worker(fold, run[i], u, f) ==> t == u
  {
    RunKeepsInv(fold, run, i);
    hide LocksOk, MapsOk, WaitersOk, ServedOk, GivenOk, GatesOk;
  }

  /** A caller that waits has a worker that knows of it once, or has its one result, which is that
    of a worker of its folded name. */
  lemma WaitersAreServed(fold: Name -> Name, run: seq<State>, i: nat, t: Tid)
    requires Run(fold, run) && i < |run| && t in run[i].calls && run[i].calls[t].pc.Waiting?
    ensures var s, c := run[i], run[i].calls[t];
      if c.inbox.None? then
        && fold(c.name) in s.protoSrcs && multiset(s.protoSrcs[fold(c.name)])[t] == 1
        && exists w :: Worker(fold, s, w, fold(c.name))
      else c.sender.Some? && Served(fold, s, c, c.sender.value)
  {
    RunKeepsInv(fold, run, i);
    hide LocksOk, MapsOk, GivenOk, GatesOk;
    var s, c := run[i], run[i].calls[t];
    if c.inbox.None? {
      assert Awaits(s, t);
      OnceInList(s.protoSrcs[fold(c.name)], t);
    }
  }

  lemma {:induction false} OnceInList(l: seq<Tid>, t: Tid)
    requires t in l && forall i, j :: 0 <= i < j < |l| ==> l[i] != l[j]
    ensures multiset(l)[t] == 1
  {
    assert l == [l[0]] + l[1..];
    if l[0] == t {
      assert t !in l[1..];
    } else {
      OnceInList(l[1..], t);
    }
  }

  /** A result, once sent, is never sent again or changed. */
  lemma ResultsStay(fold: Name -> Name, s: State, t: Tid, s': State, u: Tid)
    requires Inv(fold, s) && Step(fold, s, t, s') && u in s.calls && s.calls[u].inbox.Some?
    ensures u in s'.calls && s'.calls[u].inbox == s.calls[u].inbox && s'.calls[u].sender == s.calls[u].sender
  {
    hide LocksOk, WorkersOk, ServedOk, GivenOk, GatesOk, LookStep, WorkStep, PublishStep, EndStep, Moves;
    StepKinds(fold, s, t, s');
    var f := fold(s.calls[t].name);
    if ReturnStep(s, t, f, s') {
      assert !Awaits(s, u);
    }
  }

  /** The gateway that a call returns is in the map, at exactly one URL, from then on. */
  lemma ReturnedGatewaysAreListed(fold: Name -> Name, run: seq<State>, i: nat, t: Tid)
    requires Run(fold, run) && i < |run| && t in run[i].calls && run[i].calls[t].pc.Done? && run[i].calls[t].pc.r.Got?
    ensures exists url :: url in run[i].srcs && run[i].srcs[url] == run[i].calls[t].pc.r.g
    ensures forall u, v :: u in run[i].srcs && v in run[i].srcs && run[i].srcs[u] == run[i].srcs[v] ==> u == v
  {
    RunKeepsInv(fold, run, i);
    hide LocksOk, MapsOk, WorkersOk, WaitersOk, ServedOk;
    var g := run[i].calls[t].pc.r.g;
    assert Gives(run[i].calls[t].pc, g);
    assert g in run[i].srcs.Values;
    var url :| url in run[i].srcs && run[i].srcs[url] == g;
  }

  /* ----- No deadlock ----- */

  predicate Blocked(s: State, t: Tid)
    requires t in s.calls
  {
    var c := s.calls[t];
    || ((c.pc.Upgrade? || c.pc.Publish?) && !CanWrite(s))
    || (c.pc.Recheck? && s.writer.Some?)
    || (c.pc.Waiting? && c.inbox.None?)
    || c.pc.Done? || c.pc.Panicked?
  }

  ghost predicate CanMove(fold: Name -> Name, s: State, t: Tid) {
    exists s' :: Step(fold, s, t, s')
  }

  lemma Moved(fold: Name -> Name, s: State, t: Tid, s': State)
    requires Step(fold, s, t, s')
    ensures CanMove(fold, s, t)
  {
  }

  lemma UnblockedCanMove(fold: Name -> Name, s: State, t: Tid)
    requires t in s.calls && !Blocked(s, t)
    ensures CanMove(fold, s, t)
  {
    hide CanMove;
    var c, f := s.calls[t], fold(s.calls[t].name);
    match c.pc
    case Begin => Moved(fold, s, t, At(s, t, Done(Failed(""))));
    case Lookup => Moved(fold, s, t, At(s, t, LookedUp(s, c.name, f)).(readers := s.readers - {t}));
    case Upgrade(url) => Moved(fold, s, t, At(s, t, Upgrading(url)).(writer := Some(t)));
    case Upgrading(url) =>
      Moved(fold, s, t, At(s, t, Found(s, url)).(writer := None, nameToURL := s.nameToURL[c.name := url]));
    case Register =>
      var s' := if f in s.protoSrcs then At(s, t, Waiting).(protoSrcs := s.protoSrcs[f := s.protoSrcs[f] + [t]])
                else At(s, t, Deduce).(protoSrcs := s.protoSrcs[f := []]);
      Moved(fold, s, t, s');
    case Waiting => Moved(fold, s, t, At(s, t, Done(c.inbox.value)));
    case Deduce => Moved(fold, s, t, At(s, t, Recheck));
    case Recheck =>
      var s' := if f in s.nameToURL then
                  At(s, t, if s.nameToURL[f] in s.srcs then Return(Got(s.srcs[s.nameToURL[f]]), false) else Panicked)
                else At(s, t, Connect(s.next)).(next := s.next + 1);
      Moved(fold, s, t, s');
    case Connect(g) => Moved(fold, s, t, At(s, t, Return(Failed(""), false)));
    case Publish(g, url) => Moved(fold, s, t, At(s, t, Writing(g, url)).(writer := Some(t)));
    case Writing(g, raw) =>
      var url := if f == c.name then raw else fold(raw);
      Moved(fold, s, t, At(s, t, Inserting(g, url)).(nameToURL := Names(s.nameToURL, c.name, f, raw, url)));
    case Inserting(g, url) =>
      var s' := if url in s.srcs then At(s, t, Return(Got(s.srcs[url]), true))
                else At(s, t, Return(Got(g), true)).(srcs := s.srcs[url := g]);
      Moved(fold, s, t, s');
    case Return(r, locked) => Moved(fold, s, t, At(Sent(s, t, f, r), t, if locked then Unlocking(r) else Done(r)));
    case Unlocking(r) => Moved(fold, s, t, At(s, t, Done(r)).(writer := None));
  }

  /** As long as a call is not done, some call can take a step. */
  lemma NoDeadlock(fold: Name -> Name, run: seq<State>, i: nat, t: Tid) returns (u: Tid)
    requires Run(fold, run) && i < |run| && t in run[i].calls && !run[i].calls[t].pc.Done?
    ensures u in run[i].calls && CanMove(fold, run[i], u)
  {
    RunKeepsInv(fold, run, i);
    hide Run, CanMove, ServedOk, GivenOk, GatesOk;
    var s := run[i];
    if s.writer.Some? {
      u := s.writer.value;
    } else if s.readers != {} {
      u :| u in s.readers;
    } else if s.calls[t].pc.Waiting? && s.calls[t].inbox.None? {
      assert Awaits(s, t);
      u :| Worker(fold, s, u, fold(s.calls[t].name));
    } else {
      u := t;
    }
    UnblockedCanMove(fold, s, u);
  }

  /* ----- Every call returns ----- */

  /** How many steps a call has left at most. */
  function Stage(pc: Pc): nat {
    match pc
    case Begin => 11
    case Lookup => 10
    case Register => 9
    case Deduce => 8
    case Recheck => 7
    case Connect(_) => 6
    case Publish(_, _) => 5
    case Writing(_, _) => 4
    case Inserting(_, _) => 3
    case Return(_, _) => 2
    case Upgrade(_) => 2
    case Upgrading(_) => 1
    case Unlocking(_) => 1
    case Waiting => 1
    case Done(_) => 0
    case Panicked => 0
  }

  lemma LookFalls(s: State, t: Tid, f: Name, s': State)
    requires t in s.calls && (LookStep(s, t, f, s') || JoinStep(s, t, f, s')) && t in s'.calls
    ensures Stage(s'.calls[t].pc) < Stage(s.calls[t].pc) && !s.calls[t].pc.Waiting?
  {
    var c := s.calls[t];
    assert Stage(LookedUp(s, c.name, f)) < 10;
    assert forall url :: Stage(Found(s, url)) == 0;
  }

  lemma AtHas(s: State, t: Tid, pc: Pc)
    requires t in s.calls
    ensures var x := At(s, t, pc);
      && x.calls.Keys == s.calls.Keys && x.calls[t] == s.calls[t].(pc := pc)
      && (forall u :: u in s.calls && u != t ==> x.calls[u] == s.calls[u])
      && x.nameToURL == s.nameToURL && x.srcs == s.srcs
  {
  }

  lemma WorkFalls(s: State, t: Tid, f: Name, s': State)
    requires t in s.calls && WorkStep(s, t, f, s')
    ensures t in s'.calls && Stage(s'.calls[t].pc) < Stage(s.calls[t].pc) && !s.calls[t].pc.Waiting?
  {
    hide At;
    forall pc { AtHas(s, t, pc); }
    match s.calls[t].pc
    case Deduce =>
    case Recheck =>
    case Connect(g) =>
  }

  lemma PublishFalls(fold: Name -> Name, s: State, t: Tid, f: Name, s': State)
    requires t in s.calls && PublishStep(fold, s, t, f, s')
    ensures t in s'.calls && Stage(s'.calls[t].pc) < Stage(s.calls[t].pc) && !s.calls[t].pc.Waiting?
  {
    hide At;
    forall pc { AtHas(s, t, pc); }
  }

  lemma EndFalls(s: State, t: Tid, f: Name, s': State)
    requires t in s.calls && (ReturnStep(s, t, f, s') || EndStep(s, t, s')) && t in s'.calls
    ensures Stage(s'.calls[t].pc) < Stage(s.calls[t].pc)
    ensures s.calls[t].pc.Waiting? ==> s.calls[t].inbox.Some? && s'.calls[t].pc == Done(s.calls[t].inbox.value)
  {
  }

  /** A step brings its call closer to the end, and no other call anywhere. */
  lemma StepFalls(fold: Name -> Name, s: State, t: Tid, s': State)
    requires Inv(fold, s) && Step(fold, s, t, s')
    ensures s'.calls.Keys == s.calls.Keys && Stage(s'.calls[t].pc) < Stage(s.calls[t].pc)
    ensures forall u :: u in s.calls && u != t ==> s'.calls[u].pc == s.calls[u].pc
    ensures s.calls[t].pc.Waiting? ==> s.calls[t].inbox.Some? && s'.calls[t].pc == Done(s.calls[t].inbox.value)
  {
    hide Inv, LookStep, JoinStep, WorkStep, PublishStep, ReturnStep, EndStep, Stage;
    StepKeepsInv(fold, s, t, s');
    var f := fold(s.calls[t].name);
    if LookStep(s, t, f, s') || JoinStep(s, t, f, s') {
      LookFalls(s, t, f, s');
    } else if WorkStep(s, t, f, s') {
      WorkFalls(s, t, f, s');
    } else if PublishStep(fold, s, t, f, s') {
      PublishFalls(fold, s, t, f, s');
    } else {
      EndFalls(s, t, f, s');
    }
  }

  /** From state i on, the calls `acts` take a step each, and no call comes in. */
  ghost predicate StepsBy(fold: Name -> Name, run: seq<State>, i: nat, acts: seq<Tid>) {
    i + |acts| < |run| && forall k :: 0 <= k < |acts| ==> Step(fold, run[i + k], acts[k], run[i + k + 1])
  }

  lemma StepsAreInRun(fold: Name -> Name, run: seq<State>, i: nat, acts: seq<Tid>)
    requires StepsBy(fold, run, i, acts)
    ensures i + |acts| < |run|
  {
  }

  lemma LastStep(fold: Name -> Name, run: seq<State>, i: nat, acts: seq<Tid>)
    requires StepsBy(fold, run, i, acts) && acts != []
    ensures var n := |acts| - 1;
      StepsBy(fold, run, i, acts[..n]) && Step(fold, run[i + n], acts[n], run[i + n + 1])
  {
    hide Step;
    var n := |acts| - 1;
    assert Step(fold, run[i + n], acts[n], run[i + n + 1]);
  }

  /** Between s and s' no call came in, and t took n steps. */
  predicate Went(s: State, s': State, t: Tid, n: nat) {
    && s'.calls.Keys == s.calls.Keys
    && if t in s.calls then n + Stage(s'.calls[t].pc) <= Stage(s.calls[t].pc) else n == 0
  }

  lemma WentNowhere(s: State, t: Tid)
    ensures Went(s, s, t, 0)
  {
  }

  lemma WentOnce(fold: Name -> Name, s0: State, s: State, s': State, u: Tid, t: Tid, n: nat)
    requires Inv(fold, s) && Step(fold, s, u, s') && Went(s0, s, t, n)
    ensures Went(s0, s', t, if u == t then n + 1 else n)
  {
    hide Inv, Step, Stage;
    StepFalls(fold, s, u, s');
    StepIsOfCall(fold, s, u, s');
  }

  lemma StepIsOfCall(fold: Name -> Name, s: State, u: Tid, s': State)
    requires Step(fold, s, u, s')
    ensures u in s.calls
  {
  }

  lemma {:induction false} StepsAreFew(fold: Name -> Name, run: seq<State>, i: nat, acts: seq<Tid>, t: Tid)
    requires Run(fold, run) && StepsBy(fold, run, i, acts)
    ensures i + |acts| < |run| && Went(run[i], run[i + |acts|], t, multiset(acts)[t])
    decreases |acts|
  {
    hide Run, Inv, Step, Stage, StepsBy, Went;
    StepsAreInRun(fold, run, i, acts);
    if acts == [] {
      WentNowhere(run[i], t);
    } else {
      var n := |acts| - 1;
      assert acts == acts[..n] + [acts[n]];
      LastStep(fold, run, i, acts);
      StepsAreFew(fold, run, i, acts[..n], t);
      RunKeepsInv(fold, run, i + n);
      WentOnce(fold, run[i], run[i + n], run[i + n + 1], acts[n], t, multiset(acts[..n])[t]);
    }
  }

  /** No element of ts, and nothing else, comes more than k times. */
  lemma {:induction false} FewOfEach(m: multiset<Tid>, ts: set<Tid>, k: nat)
    requires forall t :: t in m ==> t in ts && m[t] <= k
    ensures |m| <= k * |ts|
  {
    if ts == {} {
      assert m == multiset{};
    } else {
      var t :| t in ts;
      assert |m| == |m[t := 0]| + m[t];
      FewOfEach(m[t := 0], ts - {t}, k);
      assert k * |ts| == k * |ts - {t}| + k;
    }
  }

  /** The call has the result of a worker of its folded name, and returns it. */
  ghost predicate ServedWell(fold: Name -> Name, s: State, t: Tid)
    requires t in s.calls
  {
    var c := s.calls[t];
    c.sender.Some? && c.inbox.Some? && c.pc == Done(c.inbox.value) && Served(fold, s, c, c.sender.value)
  }

  lemma WaiterStep(fold: Name -> Name, s: State, u: Tid, s': State, t: Tid)
    requires Inv(fold, s) && Inv(fold, s') && Step(fold, s, u, s') && t in s.calls
    requires s.calls[t].pc.Waiting? || ServedWell(fold, s, t)
    ensures t in s'.calls && (s'.calls[t].pc.Waiting? || ServedWell(fold, s', t))
  {
    hide Inv, Step, Stage, Served;
    InvServes(fold, s');
    StepFalls(fold, s, u, s');
    StageOfDone(s.calls[t].pc);
    if s.calls[t].inbox.Some? { ResultsStay(fold, s, u, s', t); }
  }

  lemma NewCallIsApart(fold: Name -> Name, s: State, u: Tid, name: Name, s': State, t: Tid)
    requires NewCall(s, u, name, s') && t in s.calls
    ensures t in s'.calls && s'.calls[t] == s.calls[t] && (ServedWell(fold, s, t) ==> ServedWell(fold, s', t))
  {
  }

  lemma WaiterStays(fold: Name -> Name, s: State, s': State, t: Tid)
    requires Inv(fold, s) && Inv(fold, s') && Next(fold, s, s') && t in s.calls
    requires s.calls[t].pc.Waiting? || ServedWell(fold, s, t)
    ensures t in s'.calls && (s'.calls[t].pc.Waiting? || ServedWell(fold, s', t))
  {
    hide Inv, Step, NewCall, ServedWell;
    if u :| Step(fold, s, u, s') {
      WaiterStep(fold, s, u, s', t);
    } else {
      var u, name :| NewCall(s, u, name, s');
      NewCallIsApart(fold, s, u, name, s', t);
    }
  }

  /** A caller that folded in goes on waiting, or returns the result of a worker. */
  lemma {:induction false} WaiterIsServed(fold: Name -> Name, run: seq<State>, k: nat, j: nat, t: Tid)
    requires Run(fold, run) && k <= j < |run| && t in run[k].calls && run[k].calls[t].pc.Waiting?
    ensures t in run[j].calls && (run[j].calls[t].pc.Waiting? || ServedWell(fold, run[j], t))
    decreases j
  {
    hide Run, Inv, Next, ServedWell;
    if k < j {
      WaiterIsServed(fold, run, k, j - 1, t);
      RunKeepsInv(fold, run, j - 1);
      RunKeepsInv(fold, run, j);
      RunNext(fold, run, j);
      WaiterStays(fold, run[j - 1], run[j], t);
    }
  }

  lemma StageOfDone(pc: Pc)
    ensures pc.Done? ==> Stage(pc) == 0
  {
  }

  lemma InvServes(fold: Name -> Name, s: State)
    requires Inv(fold, s)
    ensures forall t :: t in s.calls ==>
      if s.calls[t].sender.Some? then Served(fold, s, s.calls[t], s.calls[t].sender.value) else s.calls[t].inbox.None?
  {
    hide LocksOk, MapsOk, WorkersOk, WaitersOk, GivenOk, GatesOk;
  }

  ghost predicate Stopped(fold: Name -> Name, s: State) {
    forall u :: !CanMove(fold, s, u)
  }

  /** When no more calls come in, every way of going on ends after at most eleven steps a call,
    and it ends only when every call has returned, those that ever folded in with the result that
    a worker of their name returns. */
  lemma EveryCallReturns(fold: Name -> Name, run: seq<State>, i: nat, acts: seq<Tid>)
    requires Run(fold, run) && StepsBy(fold, run, i, acts)
    ensures i + |acts| < |run| && run[i + |acts|].calls.Keys == run[i].calls.Keys
    ensures |acts| <= 11 * |run[i].calls|
    ensures Stopped(fold, run[i + |acts|]) ==> forall t :: t in run[i].calls ==> run[i + |acts|].calls[t].pc.Done?
    ensures Stopped(fold, run[i + |acts|]) ==>
      forall k, t | 0 <= k <= i + |acts| && t in run[k].calls && run[k].calls[t].pc.Waiting? ::
        t in run[i + |acts|].calls && ServedWell(fold, run[i + |acts|], t)
  {
    hide Run, CanMove, StepsBy, Stage, ServedWell, Stopped;
    FewSteps(fold, run, i, acts);
    if Stopped(fold, run[i + |acts|]) {
      forall t | t in run[i].calls
        ensures run[i + |acts|].calls[t].pc.Done?
      {
        StoppedIsDone(fold, run, i + |acts|, t);
      }
      forall k, t | 0 <= k <= i + |acts| && t in run[k].calls && run[k].calls[t].pc.Waiting?
        ensures t in run[i + |acts|].calls && ServedWell(fold, run[i + |acts|], t)
      {
        WaiterIsServed(fold, run, k, i + |acts|, t);
      }
    }
  }

  lemma FewSteps(fold: Name -> Name, run: seq<State>, i: nat, acts: seq<Tid>)
    requires Run(fold, run) && StepsBy(fold, run, i, acts)
    ensures i + |acts| < |run| && run[i + |acts|].calls.Keys == run[i].calls.Keys
    ensures |acts| <= 11 * |run[i].calls|
  {
    hide Run, StepsBy, Stage;
    StepsAreInRun(fold, run, i, acts);
    var ts := run[i].calls.Keys;
    forall t
      ensures i + |acts| < |run| && run[i + |acts|].calls.Keys == ts
      ensures t in multiset(acts) ==> t in ts && multiset(acts)[t] <= 11
    {
      StepsAreFew(fold, run, i, acts, t);
      if t in ts { StageBound(run[i].calls[t].pc); }
    }
    FewOfEach(multiset(acts), ts, 11);
    assert |ts| == |run[i].calls|;
  }

  lemma StoppedIsDone(fold: Name -> Name, run: seq<State>, i: nat, t: Tid)
    requires Run(fold, run) && i < |run| && Stopped(fold, run[i]) && t in run[i].calls
    ensures run[i].calls[t].pc.Done?
  {
    hide Run, CanMove;
    if !run[i].calls[t].pc.Done? { var u := NoDeadlock(fold, run, i, t); }
  }

  lemma StageBound(pc: Pc)
    ensures Stage(pc) <= 11
  {
  }

  /* ----- Names are recorded ----- */

  /** The state knows the name, as it is given or folded. */
  predicate Knows(fold: Name -> Name, s: State, name: Name) {
    name in s.nameToURL || fold(name) in s.nameToURL
  }

  /** A worker that has a gateway to give, or is about to enter one, has its folded name recorded; so
    have those that were sent one; and a name for which a call has returned one is known. */
  ghost predicate RecordedOk(fold: Name -> Name, s: State) {
    forall t :: t in s.calls ==> Recorded(fold, s, s.calls[t])
  }

  predicate Recorded(fold: Name -> Name, s: State, c: Call) {
    && (c.pc.Inserting? || ((c.pc.Return? || c.pc.Unlocking?) && c.pc.r.Got?) || (c.inbox.Some? && c.inbox.value.Got?) ==>
          fold(c.name) in s.nameToURL)
    && (c.pc.Done? && c.pc.r.Got? ==> Knows(fold, s, c.name))
    && Entered(s, c)
  }

  /** While it holds the lock, a worker has its own name recorded at the URL of its gateway. */
  predicate Entered(s: State, c: Call) {
    && (c.pc.Inserting? ==> c.name in s.nameToURL && s.nameToURL[c.name] == c.pc.url)
    && (HoldsWrite(c.pc) && (c.pc.Return? || c.pc.Unlocking?) && c.pc.r.Got? ==>
          c.name in s.nameToURL && s.nameToURL[c.name] in s.srcs && s.srcs[s.nameToURL[c.name]] == c.pc.r.g)
  }

  lemma RecordedStill(fold: Name -> Name, s: State, s': State, c: Call)
    requires Recorded(fold, s, c) && forall n :: n in s.nameToURL ==> n in s'.nameToURL
    requires HoldsWrite(c.pc) ==> s'.nameToURL == s.nameToURL && s'.srcs == s.srcs
    ensures Recorded(fold, s', c)
  {
  }

  /** What a step does to the calls and the maps: only its own call moves, and names are only added. */
  ghost predicate Alters(fold: Name -> Name, s: State, t: Tid, s': State)
    requires t in s.calls
  {
    && s'.calls.Keys == s.calls.Keys && (forall u :: u in s.calls && u != t ==> s'.calls[u] == s.calls[u])
    && Recorded(fold, s', s'.calls[t]) && (forall n :: n in s.nameToURL ==> n in s'.nameToURL)
    && (HoldsWrite(s.calls[t].pc) || (s'.nameToURL == s.nameToURL && s'.srcs == s.srcs))
  }

  lemma QuietHas(s: State, t: Tid, s': State)
    requires t in s.calls && Quiet(s, t, s')
    ensures s'.calls.Keys == s.calls.Keys && forall u :: u in s.calls && u != t ==> s'.calls[u] == s.calls[u]
    ensures s'.calls[t] == s.calls[t].(pc := s'.calls[t].pc)
  {
  }

  /** What a look leads to: a gateway by a name that is known, or on to where nothing is recorded. */
  lemma LookNames(s: State, t: Tid, f: Name, s': State)
    requires t in s.calls && LookStep(s, t, f, s') && t in s'.calls
    ensures var c, pc := s.calls[t], s'.calls[t].pc;
      && !pc.Inserting? && !pc.Return? && !pc.Unlocking? && (pc.Done? && pc.r.Got? ==> c.name in s'.nameToURL)
      && s'.srcs == s.srcs && (forall n :: n in s.nameToURL ==> n in s'.nameToURL)
      && (HoldsWrite(c.pc) || s'.nameToURL == s.nameToURL)
  {
    hide CanWrite;
  }

  lemma LookRecords(fold: Name -> Name, s: State, t: Tid, s': State)
    requires t in s.calls && LookStep(s, t, fold(s.calls[t].name), s') && Recorded(fold, s, s.calls[t])
    ensures Alters(fold, s, t, s')
  {
    hide LookStep, Quiet, Moves;
    LookIsQuiet(s, t, fold(s.calls[t].name), s');
    QuietHas(s, t, s');
    LookNames(s, t, fold(s.calls[t].name), s');
  }

  lemma WorkNames(s: State, t: Tid, f: Name, s': State)
    requires t in s.calls && WorkStep(s, t, f, s') && t in s'.calls
    ensures var pc := s'.calls[t].pc;
      && !pc.Inserting? && !pc.Unlocking? && !pc.Done? && (pc.Return? ==> !pc.locked && (pc.r.Got? ==> f in s.nameToURL))
      && s'.srcs == s.srcs && s'.nameToURL == s.nameToURL
  {
    hide At;
    forall pc { AtHas(s, t, pc); }
    match s.calls[t].pc
    case Deduce =>
    case Recheck =>
    case Connect(g) =>
  }

  lemma WorkRecords(fold: Name -> Name, s: State, t: Tid, s': State)
    requires MapsOk(s) && t in s.calls && WorkStep(s, t, fold(s.calls[t].name), s') && Recorded(fold, s, s.calls[t])
    ensures Alters(fold, s, t, s')
  {
    hide WorkStep, Quiet, Moves, MapsOk;
    WorkIsQuiet(s, t, fold(s.calls[t].name), s');
    QuietHas(s, t, s');
    WorkNames(s, t, fold(s.calls[t].name), s');
  }

  lemma PublishNames(fold: Name -> Name, s: State, t: Tid, s': State)
    requires t in s.calls && PublishStep(fold, s, t, fold(s.calls[t].name), s') && Entered(s, s.calls[t]) && t in s'.calls
    requires s.calls[t].pc.Inserting? ==> fold(s.calls[t].name) in s.nameToURL
    ensures var c, pc := s.calls[t], s'.calls[t].pc;
      && !pc.Unlocking? && !pc.Done? && (pc.Inserting? || pc.Return? ==> fold(c.name) in s'.nameToURL)
      && Entered(s', c.(pc := pc)) && (forall n :: n in s.nameToURL ==> n in s'.nameToURL)
      && (HoldsWrite(c.pc) || (s'.nameToURL == s.nameToURL && s'.srcs == s.srcs))
  {
    hide CanWrite;
  }

  lemma PublishRecords(fold: Name -> Name, s: State, t: Tid, s': State)
    requires t in s.calls && PublishStep(fold, s, t, fold(s.calls[t].name), s') && Recorded(fold, s, s.calls[t])
    ensures Alters(fold, s, t, s')
  {
    hide PublishStep, Quiet, Moves, Entered;
    PublishIsQuiet(fold, s, t, fold(s.calls[t].name), s');
    QuietHas(s, t, s');
    PublishNames(fold, s, t, s');
  }

  lemma JoinRecords(fold: Name -> Name, s: State, t: Tid, s': State)
    requires t in s.calls && JoinStep(s, t, fold(s.calls[t].name), s') && Recorded(fold, s, s.calls[t])
    ensures Alters(fold, s, t, s')
  {
  }

  lemma EndRecords(fold: Name -> Name, s: State, t: Tid, s': State)
    requires t in s.calls && EndStep(s, t, s') && Recorded(fold, s, s.calls[t])
    ensures Alters(fold, s, t, s')
  {
  }

  /** Those that are sent a result have the folded name of the worker that sends it. */
  lemma ReturnRecords(fold: Name -> Name, s: State, t: Tid, s': State)
    requires WaitersOk(fold, s) && RecordedOk(fold, s)
    requires t in s.calls && ReturnStep(s, t, fold(s.calls[t].name), s')
    ensures RecordedOk(fold, s')
  {
    var f := fold(s.calls[t].name);
    forall u | u in s'.calls
      ensures Recorded(fold, s', s'.calls[u])
    {
      assert Recorded(fold, s, s.calls[u]) && Recorded(fold, s, s.calls[t]);
      if f in s.protoSrcs && u in s.protoSrcs[f] { assert Awaits(s, u); }
    }
  }

  lemma StepRecords(fold: Name -> Name, s: State, t: Tid, s': State)
    requires Inv(fold, s) && RecordedOk(fold, s) && Step(fold, s, t, s')
    ensures RecordedOk(fold, s') && forall n :: n in s.nameToURL ==> n in s'.nameToURL
  {
    hide LocksOk, MapsOk, WorkersOk, WaitersOk, ServedOk, GivenOk, GatesOk, Recorded;
    hide LookStep, JoinStep, WorkStep, PublishStep, ReturnStep, EndStep;
    var f := fold(s.calls[t].name);
    if ReturnStep(s, t, f, s') {
      ReturnRecords(fold, s, t, s');
      SameNames(s, t, f, s');
    } else {
      if LookStep(s, t, f, s') { LookRecords(fold, s, t, s'); }
      if WorkStep(s, t, f, s') { WorkRecords(fold, s, t, s'); }
      if PublishStep(fold, s, t, f, s') { PublishRecords(fold, s, t, s'); }
      if JoinStep(s, t, f, s') { JoinRecords(fold, s, t, s'); }
      if EndStep(s, t, s') { EndRecords(fold, s, t, s'); }
      forall u | u in s'.calls && u != t
        ensures Recorded(fold, s', s'.calls[u])
      {
        OneWriter(s, t, u);
        RecordedStill(fold, s, s', s.calls[u]);
      }
    }
  }

  lemma OneWriter(s: State, t: Tid, u: Tid)
    requires LocksOk(s) && t in s.calls && u in s.calls && t != u
    ensures !(HoldsWrite(s.calls[t].pc) && HoldsWrite(s.calls[u].pc))
  {
  }

  lemma SameNames(s: State, t: Tid, f: Name, s': State)
    requires t in s.calls && ReturnStep(s, t, f, s')
    ensures s'.nameToURL == s.nameToURL
  {
  }

  lemma NextRecords(fold: Name -> Name, s: State, s': State)
    requires Inv(fold, s) && RecordedOk(fold, s) && Next(fold, s, s')
    ensures RecordedOk(fold, s') && forall n :: n in s.nameToURL ==> n in s'.nameToURL
  {
    hide Inv, Step;
    if t :| Step(fold, s, t, s') { StepRecords(fold, s, t, s'); }
  }

  /** In every state of a run; and what is recorded stays so. */
  lemma {:induction false} RunRecords(fold: Name -> Name, run: seq<State>, i: nat, j: nat)
    requires Run(fold, run) && i <= j < |run|
    ensures RecordedOk(fold, run[j]) && forall n :: n in run[i].nameToURL ==> n in run[j].nameToURL
    decreases j
  {
    hide Run, Inv, Next, Recorded;
    RunNext(fold, run, j);
    if j > 0 {
      RunRecords(fold, run, if i < j then i else j - 1, j - 1);
      RunKeepsInv(fold, run, j - 1);
      NextRecords(fold, run[j - 1], run[j]);
    }
  }

  /** A worker that has entered a gateway gives it to every later call for its name, as long as
    the URL of that name is not recorded anew. */
  lemma LaterCallsGetIt(fold: Name -> Name, run: seq<State>, i: nat, t: Tid, j: nat, u: Tid, s': State)
    requires Run(fold, run) && i <= j < |run| && t in run[i].calls && run[i].calls[t].pc.Unlocking?
    requires run[i].calls[t].pc.r.Got? && u in run[j].calls && run[j].calls[u].name == run[i].calls[t].name
    requires run[j].calls[u].pc.Lookup? && Step(fold, run[j], u, s')
    ensures var n := run[i].calls[t].name;
      && n in run[i].nameToURL && n in run[j].nameToURL && u in s'.calls
      && (run[j].nameToURL[n] == run[i].nameToURL[n] ==> s'.calls[u].pc == Done(run[i].calls[t].pc.r))
  {
    hide Run, Inv, Step;
    RunRecords(fold, run, i, i);
    RunRecords(fold, run, i, j);
    var n := run[i].calls[t].name;
    assert Recorded(fold, run[i], run[i].calls[t]);
    var url := run[i].nameToURL[n];
    GatewaysStay(fold, run, i, j, url);
    RunKeepsInv(fold, run, j);
    KnownLookIsAnswered(fold, run[j], u, s');
  }

  lemma KnownLookIsAnswered(fold: Name -> Name, s: State, u: Tid, s': State)
    requires Inv(fold, s) && u in s.calls && s.calls[u].pc.Lookup? && Step(fold, s, u, s')
    requires Knows(fold, s, s.calls[u].name)
    ensures var n := s.calls[u].name;
      && u in s'.calls
      && if n in s.nameToURL then s.nameToURL[n] in s.srcs && s'.calls[u].pc == Done(Got(s.srcs[s.nameToURL[n]]))
         else && fold(n) in s.nameToURL && s.nameToURL[fold(n)] in s.srcs
              && s'.calls[u].pc == Upgrade(s.nameToURL[fold(n)])
  {
    hide LocksOk, MapsOk, WorkersOk, WaitersOk, ServedOk, GivenOk, GatesOk;
    LookIsAnswered(fold, s, u, s');
  }

  /** Once a call has returned a gateway, every call for that name which looks after that is answered
    from the maps, at its next step or the one after: it neither waits nor deduces. */
  lemma LaterCallsAreAnswered(fold: Name -> Name, run: seq<State>, i: nat, t: Tid, j: nat, u: Tid, s': State)
    requires Run(fold, run) && i <= j < |run| && t in run[i].calls && run[i].calls[t].pc.Done?
    requires run[i].calls[t].pc.r.Got? && u in run[j].calls && run[j].calls[u].name == run[i].calls[t].name
    requires run[j].calls[u].pc.Lookup? && Step(fold, run[j], u, s')
    ensures var s, n := run[j], run[j].calls[u].name;
      && u in s'.calls
      && if n in s.nameToURL then s.nameToURL[n] in s.srcs && s'.calls[u].pc == Done(Got(s.srcs[s.nameToURL[n]]))
         else && fold(n) in s.nameToURL && s.nameToURL[fold(n)] in s.srcs
              && s'.calls[u].pc == Upgrade(s.nameToURL[fold(n)])
  {
    RunRecords(fold, run, i, j);
    RunRecords(fold, run, i, i);
    assert Recorded(fold, run[i], run[i].calls[t]);
    RunKeepsInv(fold, run, j);
    hide Run, ServedOk, WaitersOk, WorkersOk, GivenOk, GatesOk, Recorded, RecordedOk;
    LookIsAnswered(fold, run[j], u, s');
  }

  lemma LookIsAnswered(fold: Name -> Name, s: State, u: Tid, s': State)
    requires LocksOk(s) && MapsOk(s) && u in s.calls && s.calls[u].pc.Lookup? && Step(fold, s, u, s')
    requires Knows(fold, s, s.calls[u].name)
    ensures var n := s.calls[u].name;
      && u in s'.calls
      && if n in s.nameToURL then s.nameToURL[n] in s.srcs && s'.calls[u].pc == Done(Got(s.srcs[s.nameToURL[n]]))
         else && fold(n) in s.nameToURL && s.nameToURL[fold(n)] in s.srcs
              && s'.calls[u].pc == Upgrade(s.nameToURL[fold(n)])
  {
    var n := s.calls[u].name;
    assert u in s.readers && s.writer.None?;
    assert forall url :: !Coming(s, url);
  }

  /** A call that goes on from the folded name is answered with the gateway recorded for it. */
  lemma UpgradesAreAnswered(fold: Name -> Name, s: State, u: Tid, s': State)
    requires Inv(fold, s) && u in s.calls && s.calls[u].pc.Upgrading? && Step(fold, s, u, s')
    ensures var url := s.calls[u].pc.url;
      && u in s'.calls && url in s.srcs && s'.calls[u].pc == Done(Got(s.srcs[url]))
      && s'.nameToURL == s.nameToURL[s.calls[u].name := url]
  {
    hide LocksOk, WorkersOk, WaitersOk, ServedOk, GivenOk, GatesOk;
  }

  /** The URL of a name changes only when a call records that very string: its own name, folded or
    not, or a URL that it deduced. */
  lemma NamesChangeByRecording(fold: Name -> Name, s: State, t: Tid, s': State, n: Name)
    requires Step(fold, s, t, s') && n in s.nameToURL && (n !in s'.nameToURL || s'.nameToURL[n] != s.nameToURL[n])
    ensures var c := s.calls[t];
      || (c.pc.Upgrading? && n == c.name)
      || (c.pc.Writing? && n in {c.name, fold(c.name), c.pc.url, fold(c.pc.url)})
  {
  }
}
