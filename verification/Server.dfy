/**
 The stream connected to a server that applies declarations in order, echoes
 their ids, may rate-limit or refuse any of them, and rejects exactly the keys of
 a fixed set `bad` (docs/api/asyncapi.json: a rejected item is rejected again
 when it is declared unchanged). Both directions of the socket are queues.
 */
module Server {
  import opened Mutations
  import opened Declaring
  import opened Protocol

  datatype Decl = Decl(n: nat, body: set<Key>)

  datatype System = System(
    c: Client,
    eff: set<Key>, // what the server delivers on the current connection
    inbox: seq<Decl>, // declarations written and not yet processed
    outbox: seq<Frame>, // frames sent and not yet read
    refused: bool, // the last processed declaration that was not rate-limited was refused
    accepted: map<nat, set<Key>>) // what the server delivered after accepting a declaration

  datatype Reaction =
    | Accept(rejected: seq<Key>)
    | Throttle(id: Id)
    | Refuse(id: Id)

  datatype SysStep =
    | OfClient(step: Step)
    | Serve(r: Reaction)
    | Spontaneous(f: Frame)

  function SysInit(auto: bool): System {
    System(Init(auto), {}, [], [], false, map[])
  }

  function Good(bad: iset<Key>, s: set<Key>): set<Key> {
    set k | k in s && k !in bad
  }

  /** `rejected` lists, in any order, the bad keys of `body`. */
  predicate Rejects(bad: iset<Key>, body: set<Key>, rejected: seq<Key>) {
    && (forall k :: k in rejected ==> k in body && k in bad)
    && (forall k :: k in body && k in bad ==> k in rejected)
  }

  predicate SysEnabled(bad: iset<Key>, s: System, t: SysStep) {
    match t
    case OfClient(step) =>
      Enabled(s.c, step)
      && (step.Reads? && step.r.Receive? ==> s.outbox != [] && s.outbox[0] == step.r.f)
    case Serve(r) =>
      s.inbox != [] && (r.Accept? ==> Rejects(bad, s.inbox[0].body, r.rejected))
    case Spontaneous(f) => !f.Ack?
  }

  function NetApply(s: System, d: Client, step: Step): System {
    match step
    case Sending(e) =>
      (match e
       case EmptyWritten => s.(c := d, inbox := s.inbox + [Decl(s.c.loop.n, {})])
       case EmptyUnwritten(leaked) =>
         s.(c := d, inbox := s.inbox + if leaked then [Decl(s.c.loop.n, {})] else [])
       case Written => s.(c := d, inbox := s.inbox + [Decl(s.c.loop.n, s.c.loop.body)])
       case WriteFailed(leaked) =>
         s.(c := d, inbox := s.inbox + if leaked then [Decl(s.c.loop.n, s.c.loop.body)] else [])
       case _ => s.(c := d))
    case Reads(r) => if r.Receive? && s.outbox != [] then s.(c := d, outbox := s.outbox[1..]) else s.(c := d)
    case Running(u) =>
      if u.DialOk? then s.(c := d, eff := {}, inbox := [], outbox := [], refused := false) else s.(c := d)
    case _ => s.(c := d)
  }

  function ServeApply(bad: iset<Key>, s: System, r: Reaction): System
    requires s.inbox != []
  {
    var x := s.inbox[0];
    var t := s.(inbox := s.inbox[1..]);
    match r
    case Accept(rejected) =>
      t.(eff := Good(bad, x.body), refused := false, accepted := t.accepted[x.n := Good(bad, x.body)],
         outbox := if x.body == {} then t.outbox else t.outbox + [Ack(Declared(x.n), rejected)])
    case Throttle(id) => t.(outbox := t.outbox + [RateLimited(id)])
    case Refuse(id) => t.(outbox := t.outbox + [Refused(id)], refused := true)
  }

  function SysApply(bad: iset<Key>, s: System, t: SysStep): System
    requires SysEnabled(bad, s, t)
  {
    match t
    case OfClient(step) => NetApply(s, Apply(s.c, step), step)
    case Serve(r) => ServeApply(bad, s, r)
    case Spontaneous(f) => s.(outbox := s.outbox + [f])
  }

  predicate SysRuns(bad: iset<Key>, a: System, steps: seq<SysStep>, b: System)
    decreases steps
  {
    if steps == [] then a == b
    else SysEnabled(bad, a, steps[0]) && SysRuns(bad, SysApply(bad, a, steps[0]), steps[1..], b)
  }

  ghost predicate SysReachable(bad: iset<Key>, s: System) {
    exists auto, steps :: SysRuns(bad, SysInit(auto), steps, s)
  }
}
