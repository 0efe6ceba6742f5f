/** The sender of module Qos2 and the firmware of module Pipeline as one system: the client
    takes packets while main is in `coo_mqtt_process`, and its callback is the firmware's
    receive callback. One connection, without loss. What is proved is that a request that
    the sender has finished has been carried out and answered once, or refused once. */
module EndToEnd {
  import opened Sequences
  import opened Messages
  import opened Dispatch
  import opened Receiving
  import opened Pipeline
  import CommandRuns
  import FirmwareRuns
  import RefusalRuns
  import Qos2

  /** Both machines, and as history the numbers of the messages whose publications were
      accepted, refused and ignored. */
  datatype System = System(q: Qos2.State, s: State, admitted: seq<nat>, refused: seq<nat>, ignored: seq<nat>)

  datatype Event =
    | Sender(turn: Qos2.Step)
    | Client(readable: bool)
    | Inside(step: Step)

  function Begin(env: Env): System {
    System(Qos2.Init(), Init(env), [], [], [])
  }

  predicate Possible(x: System, e: Event) {
    match e
    case Sender(turn) => !turn.ClientTurn? && Qos2.Enabled(x.q, turn)
    case Client(_) => x.s.main == Processing && x.q.toClient != []
    case Inside(step) => !step.Receive? && !step.Disconnect? && Enabled(x.s, step)
  }

  /** The packet at the front makes the client call back. */
  predicate CallsBack(x: System, e: Event) {
    e.Client? && x.q.toClient != [] && x.q.toClient[0].Publish? && e.readable
  }

  /** The callback for a message. */
  function CalledBack(env: Env, of: nat -> Publication, x: System, m: nat): System
    requires x.s.main == Processing
  {
    var y := x.(s := Apply(env, x.s, Receive(of(m))));
    match env.judge(of(m))
    case Ignored => y.(ignored := x.ignored + [m])
    case Refused => y.(refused := x.refused + [m])
    case Accepted(_) =>
      if |x.s.inbound| < INBOUND_DEPTH then y.(admitted := x.admitted + [m]) else y.(refused := x.refused + [m])
  }

  function Next(env: Env, of: nat -> Publication, x: System, e: Event): System
    requires Possible(x, e)
  {
    match e
    case Sender(turn) => x.(q := Qos2.Apply(x.q, turn))
    case Client(readable) =>
      var y := if CallsBack(x, e) then CalledBack(env, of, x, x.q.toClient[0].message) else x;
      y.(q := Qos2.Apply(x.q, Qos2.ClientTurn(readable)))
    case Inside(step) => x.(s := Apply(env, x.s, step))
  }

  predicate History(env: Env, of: nat -> Publication, x: System, es: seq<Event>)
    decreases |es|
  {
    es == [] || (Possible(x, es[0]) && History(env, of, Next(env, of, x, es[0]), es[1..]))
  }

  function Later(env: Env, of: nat -> Publication, x: System, es: seq<Event>): System
    requires History(env, of, x, es)
    decreases |es|
  {
    if es == [] then x else Later(env, of, Next(env, of, x, es[0]), es[1..])
  }

  // ---------- the two sides of a history ----------

  /** What the sender's machine sees of an event, and what the firmware does. */
  function SenderSide(e: Event): seq<Qos2.Step> {
    match e
    case Sender(turn) => [turn]
    case Client(readable) => [Qos2.ClientTurn(readable)]
    case Inside(_) => []
  }

  function DeviceSide(of: nat -> Publication, x: System, e: Event): seq<Step> {
    match e
    case Sender(_) => []
    case Client(_) => if CallsBack(x, e) then [Receive(of(x.q.toClient[0].message))] else []
    case Inside(step) => [step]
  }

  function SenderRun(es: seq<Event>): seq<Qos2.Step> {
    if es == [] then [] else SenderSide(es[0]) + SenderRun(es[1..])
  }

  function DeviceRun(env: Env, of: nat -> Publication, x: System, es: seq<Event>): seq<Step>
    requires History(env, of, x, es)
    decreases |es|
  {
    if es == [] then [] else DeviceSide(of, x, es[0]) + DeviceRun(env, of, Next(env, of, x, es[0]), es[1..])
  }

  lemma {:induction false} SenderSees(env: Env, of: nat -> Publication, x: System, es: seq<Event>)
    requires History(env, of, x, es)
    ensures Qos2.Run(x.q, SenderRun(es)) && Qos2.After(x.q, SenderRun(es)) == Later(env, of, x, es).q
    decreases |es|
  {
    if es != [] {
      var rest := SenderRun(es[1..]);
      SenderSees(env, of, Next(env, of, x, es[0]), es[1..]);
      if es[0].Inside? {
        assert [] + rest == rest;
      } else {
        var turn := SenderSide(es[0])[0];
        assert ([turn] + rest)[0] == turn && ([turn] + rest)[1..] == rest;
      }
    }
  }

  lemma {:induction false} DeviceDoes(env: Env, of: nat -> Publication, x: System, es: seq<Event>)
    requires History(env, of, x, es)
    ensures Run(env, x.s, DeviceRun(env, of, x, es)) && After(env, x.s, DeviceRun(env, of, x, es)) == Later(env, of, x, es).s
    decreases |es|
  {
    if es != [] {
      var y := Next(env, of, x, es[0]);
      var now, rest := DeviceSide(of, x, es[0]), DeviceRun(env, of, y, es[1..]);
      DeviceDoes(env, of, y, es[1..]);
      if now == [] {
        assert [] + rest == rest;
      } else {
        assert ([now[0]] + rest)[0] == now[0] && ([now[0]] + rest)[1..] == rest;
      }
    }
  }

  // ---------- each callback is accounted for ----------

  function Publications(of: nat -> Publication, ms: seq<nat>): (pubs: seq<Publication>)
    ensures |pubs| == |ms|
  {
    seq(|ms|, i requires 0 <= i < |ms| => of(ms[i]))
  }

  /** Every callback is in one of the three lists, and the accepted publications are those
      of the admitted messages, in order. */
  ghost predicate Booked(of: nat -> Publication, x: System) {
    && multiset(x.q.delivered) == multiset(x.admitted) + multiset(x.refused) + multiset(x.ignored)
    && x.s.requests == Publications(of, x.admitted)
  }

  lemma PublicationsSnoc(of: nat -> Publication, ms: seq<nat>, m: nat)
    ensures Publications(of, ms + [m]) == Publications(of, ms) + [of(m)]
  {
  }

  lemma OnlyReceiveRequests(env: Env, s: State, step: Step)
    requires Enabled(s, step) && !step.Receive?
    ensures Apply(env, s, step).requests == s.requests
  {
  }

  lemma CallbackBooked(env: Env, of: nat -> Publication, x: System, m: nat, q: Qos2.State)
    requires Booked(of, x) && x.s.main == Processing && q.delivered == x.q.delivered + [m]
    ensures Booked(of, CalledBack(env, of, x, m).(q := q))
  {
    PublicationsSnoc(of, x.admitted, m);
  }

  lemma SenderDeliversNothing(q: Qos2.State, turn: Qos2.Step)
    requires Qos2.Enabled(q, turn) && !turn.ClientTurn?
    ensures Qos2.Apply(q, turn).delivered == q.delivered
  {
  }

  lemma ClientDelivers(q: Qos2.State, readable: bool)
    requires q.toClient != []
    ensures var p := q.toClient[0];
            Qos2.Apply(q, Qos2.ClientTurn(readable)).delivered ==
            q.delivered + if p.Publish? && readable then [p.message] else []
  {
  }

  lemma EventBooked(env: Env, of: nat -> Publication, x: System, e: Event)
    requires Booked(of, x) && Possible(x, e)
    ensures Booked(of, Next(env, of, x, e))
  {
    match e
    case Sender(turn) => SenderDeliversNothing(x.q, turn);
    case Client(readable) =>
      ClientDelivers(x.q, readable);
      if CallsBack(x, e) {
        CallbackBooked(env, of, x, x.q.toClient[0].message, Qos2.Apply(x.q, Qos2.ClientTurn(readable)));
      } else {
        assert x.q.delivered + [] == x.q.delivered;
      }
    case Inside(step) => OnlyReceiveRequests(env, x.s, step);
  }

  lemma {:induction false} HistoryBooked(env: Env, of: nat -> Publication, x: System, es: seq<Event>)
    requires Booked(of, x) && History(env, of, x, es)
    ensures Booked(of, Later(env, of, x, es))
    decreases |es|
  {
    if es != [] {
      EventBooked(env, of, x, es[0]);
      HistoryBooked(env, of, Next(env, of, x, es[0]), es[1..]);
    }
  }

  function DuePublications(due: seq<RefusalRuns.Due>): (pubs: seq<Publication>)
    ensures |pubs| == |due|
  {
    seq(|due|, i requires 0 <= i < |due| => due[i].pub)
  }

  lemma EventOwes(env: Env, of: nat -> Publication, x: System, e: Event)
    requires Possible(x, e)
    ensures var side := DeviceSide(of, x, e);
            Publications(of, Next(env, of, x, e).refused) ==
            Publications(of, x.refused) + if side == [] then [] else DuePublications(RefusalRuns.DueBy(env, x.s, side[0]))
  {
    var before := Publications(of, x.refused);
    assert before + [] == before && DuePublications([]) == [];
    if CallsBack(x, e) {
      var m := x.q.toClient[0].message;
      PublicationsSnoc(of, x.refused, m);
      assert DuePublications([RefusalRuns.Due(of(m), env.refusal)]) == [of(m)];
      if env.judge(of(m)).Accepted? {
        assert DuePublications([RefusalRuns.Due(of(m), env.busy(env.judge(of(m)).cmd))]) == [of(m)];
      }
    }
  }

  lemma DuePublicationsAppend(a: seq<RefusalRuns.Due>, b: seq<RefusalRuns.Due>)
    ensures DuePublications(a + b) == DuePublications(a) + DuePublications(b)
  {
  }

  /** The refused messages are those whose publications the firmware owes a refusal, in
      order; what becomes of these is told in module RefusalRuns. */
  lemma {:induction false} RefusedAreDue(env: Env, of: nat -> Publication, x: System, es: seq<Event>)
    requires History(env, of, x, es)
    ensures Run(env, x.s, DeviceRun(env, of, x, es))
    ensures Publications(of, Later(env, of, x, es).refused) ==
            Publications(of, x.refused) + DuePublications(RefusalRuns.DueIn(env, x.s, DeviceRun(env, of, x, es)))
    decreases |es|
  {
    DeviceDoes(env, of, x, es);
    var before := Publications(of, x.refused);
    if es == [] {
      assert before + [] == before && DuePublications([]) == [];
    } else {
      var y := Next(env, of, x, es[0]);
      var now, rest := DeviceSide(of, x, es[0]), DeviceRun(env, of, y, es[1..]);
      EventOwes(env, of, x, es[0]);
      RefusedAreDue(env, of, y, es[1..]);
      var further := RefusalRuns.DueIn(env, y.s, rest);
      if now == [] {
        assert [] + rest == rest && before + [] == before;
      } else {
        assert ([now[0]] + rest)[0] == now[0] && ([now[0]] + rest)[1..] == rest;
        var owed := RefusalRuns.DueBy(env, x.s, now[0]);
        DuePublicationsAppend(owed, further);
        Assoc(before, DuePublications(owed), DuePublications(further));
      }
    }
  }

  // ---------- exactly once, from the sender to the reply ----------

  lemma CountOne<T>(a: seq<T>, m: T)
    requires multiset(a)[m] == 1
    ensures exists i :: 0 <= i < |a| && a[i] == m && m !in a[..i] && m !in a[i + 1..]
  {
    assert m in multiset(a);
    assert m in a;
    var i :| 0 <= i < |a| && a[i] == m;
    assert a == a[..i] + [m] + a[i + 1..];
    assert multiset(a) == multiset(a[..i]) + multiset([m]) + multiset(a[i + 1..]);
  }

  /** A message whose handshake is finished and whose payload could be read has been
      admitted, refused or ignored, exactly once. */
  lemma BookedOnce(env: Env, of: nat -> Publication, es: seq<Event>, m: nat)
    requires History(env, of, Begin(env), es)
    requires var y := Later(env, of, Begin(env), es); !y.q.resent && m in y.q.finished && (m, true) in y.q.handled
    ensures var y := Later(env, of, Begin(env), es);
            multiset(y.admitted)[m] + multiset(y.refused)[m] + multiset(y.ignored)[m] == 1
  {
    var x, y := Begin(env), Later(env, of, Begin(env), es);
    SenderSees(env, of, x, es);
    Qos2.ExactlyOnceWhenFinished(SenderRun(es), m);
    HistoryBooked(env, of, x, es);
  }

  /** From end to end: once the sender has PUBCOMP for a message whose payload could be
      read, and if its publication was admitted, exactly one of the accepted commands is
      its command. That waits in the inbound queue, or has its one reply, which answers
      this publication and is in the executor's hand, queued or handed to the broker; and
      every other reply belongs to another message. */
  lemma RequestAnsweredOnce(cfg: Config, dec: Decoder, judge: Publication -> Verdict, start: Device,
                            of: nat -> Publication, es: seq<Event>, m: nat) returns (i: nat)
    requires |cfg.names| == |start.states| && FirmwareRuns.Faithful(judge)
    requires History(FirmwareWith(cfg, dec, judge, start), of, Begin(FirmwareWith(cfg, dec, judge, start)), es)
    requires var env := FirmwareWith(cfg, dec, judge, start);
             var y := Later(env, of, Begin(env), es);
             !y.q.resent && m in y.q.finished && (m, true) in y.q.handled && m in y.admitted
    ensures var env := FirmwareWith(cfg, dec, judge, start);
            var y := Later(env, of, Begin(env), es);
            var replies := CommandRuns.AllReplies(y.s);
            && i < |y.admitted| && y.admitted[i] == m && m !in y.admitted[..i] && m !in y.admitted[i + 1..]
            && |replies| + |y.s.inbound| == |y.admitted|
            && (i < |replies| ==> Answers(of(m), replies[i]) && Publishable(replies[i]))
            && (i >= |replies| ==> judge(of(m)) == Accepted(y.s.inbound[i - |replies|]))
  {
    var env := FirmwareWith(cfg, dec, judge, start);
    var x, y := Begin(env), Later(env, of, Begin(env), es);
    var run := DeviceRun(env, of, x, es);
    BookedOnce(env, of, es, m);
    HistoryBooked(env, of, x, es);
    DeviceDoes(env, of, x, es);
    CommandRuns.InitInv(env);
    CommandRuns.RunKeepsInv(env, Init(env), run);
    assert m in multiset(y.admitted);
    CountOne(y.admitted, m);
    i :| 0 <= i < |y.admitted| && y.admitted[i] == m && m !in y.admitted[..i] && m !in y.admitted[i + 1..];
    FirmwareRuns.RepliesAnswerPublications(cfg, dec, judge, start, run, i);
    assert y.s.requests[i] == of(m);
    assert y.s.accepted[i] == (y.s.taken + y.s.inbound)[i];
  }
}
