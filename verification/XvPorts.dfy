/** The ports of the Xv extension (Xext/xvmain.c): who shows video where, who holds the port, and what clients are told. */
module XvPorts {
  import opened Options

  type Client = nat

  type Drawable = nat

  /** An XvVideoNotify event: its reason and its drawable */
  datatype Notify = Busy(draw: Drawable) | Preempted(draw: Drawable) | Started(draw: Drawable) | Stopped(draw: Drawable)

  datatype Port = Port(pDraw: Option<Drawable>, client: Option<Client>, grab: Option<Client>, time: nat, log: seq<Notify>)

  const INITIAL := Port(None, None, None, 0, [])

  datatype Status = Success | BadValue | BadAlloc

  datatype GrabResult = Granted | AlreadyGrabbed | InvalidTime

  /** What the events so far say the port shows */
  function Showing(log: seq<Notify>): Option<Drawable> {
    if log == [] then None
    else
      var before, last := Showing(log[..|log| - 1]), log[|log| - 1];
      match last
      case Started(d) => Some(d)
      case Stopped(d) => if before == Some(d) then None else before
      case Preempted(d) => if before == Some(d) then None else before
      case Busy(_) => before
  }

  ghost predicate Inv(p: Port) {
    Showing(p.log) == p.pDraw &&
    (p.grab.Some? && p.pDraw.Some? ==> p.client == p.grab)
  }

  // The requests, on one port at server time `now`.

  /** Destination and source sizes: nothing to do, or too large, or fine */
  datatype Size = Empty | TooLarge | Fits

  function CheckSize(dw: nat, dh: nat, sw: nat, sh: nat): Size {
    if dw == 0 || dh == 0 || sw == 0 || sh == 0 then Empty
    else if dw > 32767 || dh > 32767 || sw > 32767 || sh > 32767 then TooLarge
    else Fits
  }

  function Tell(p: Port, e: Notify): Port {
    p.(log := p.log + [e])
  }

  predicate HeldByOther(p: Port, client: Client) {
    p.grab.Some? && p.grab != Some(client)
  }

  /** PutVideo and GetVideo, that differ in the driver's entry only; `left` is what the driver leaves in pDraw. */
  function Video(p: Port, client: Client, draw: Drawable, size: Size, left: Option<Drawable>, now: nat): Port {
    if size != Fits then p
    else if HeldByOther(p, client) then Tell(p, Busy(draw))
    else
      var p1 := if p.pDraw.Some? && p.pDraw != Some(draw) then Tell(p, Preempted(p.pDraw.value)) else p;
      var p2 := p1.(pDraw := left);
      var p3 := if left.Some? && p.pDraw != Some(draw) then Tell(p2.(client := Some(client)), Started(left.value)) else p2;
      p3.(time := now)
  }

  /** PutStill, GetStill and PutImage leave the port's video alone. */
  function Still(p: Port, client: Client, draw: Drawable, size: Size, now: nat): Port {
    if size != Fits then p
    else if HeldByOther(p, client) then Tell(p, Busy(draw))
    else p.(time := now)
  }

  /** StopVideo; the server itself stops a video as no client. */
  function Stop(p: Port, client: Option<Client>, draw: Drawable, now: nat): Port {
    if p.pDraw != Some(draw) then Tell(p, Stopped(draw))
    else if client.Some? && HeldByOther(p, client.value) then Tell(p, Busy(draw))
    else Tell(p, Stopped(draw)).(pDraw := None, client := client, time := now)
  }

  function GrabOutcome(p: Port, client: Client, time: nat, now: nat): GrabResult {
    if HeldByOther(p, client) then AlreadyGrabbed
    else if time > now || time < p.time then InvalidTime
    else Granted
  }

  function Grab(p: Port, client: Client, time: nat, added: bool, now: nat): Port {
    if GrabOutcome(p, client, time, now) != Granted || p.grab == Some(client) || !added then p
    else
      var p1 := if p.pDraw.Some? && p.client != Some(client) then Stop(p, None, p.pDraw.value, now) else p;
      p1.(grab := Some(client), time := now)
  }

  function Ungrab(p: Port, client: Client, time: nat, now: nat): Port {
    if p.grab != Some(client) || time > now || time < p.time then p
    else p.(grab := None, time := now)
  }

  /** XvdiDestroyGrab: the grab is a resource of its client, and goes away with it. */
  function DropGrab(p: Port): Port {
    p.(grab := None)
  }

  /** XvStopAdaptors, as it is for one port: the drawable is being destroyed. */
  function Destroy(p: Port, draw: Drawable, now: nat): Port {
    if p.pDraw == Some(draw) then Tell(p, Preempted(draw)).(pDraw := None, client := None, time := now) else p
  }

  datatype Event =
    | PutOrGetVideo(client: Client, draw: Drawable, size: Size, left: Option<Drawable>)
    | StillOrImage(client: Client, draw: Drawable, size: Size)
    | StopVideo(client: Client, draw: Drawable)
    | GrabPort(client: Client, time: nat, added: bool)
    | UngrabPort(client: Client, time: nat)
    | ClientGone(client: Client)
    | DrawableGone(draw: Drawable)

  function Step(p: Port, e: Event, now: nat): Port {
    match e
    case PutOrGetVideo(client, draw, size, left) => Video(p, client, draw, size, left, now)
    case StillOrImage(client, draw, size) => Still(p, client, draw, size, now)
    case StopVideo(client, draw) => Stop(p, Some(client), draw, now)
    case GrabPort(client, time, added) => Grab(p, client, time, added, now)
    case UngrabPort(client, time) => Ungrab(p, client, time, now)
    case ClientGone(client) => if p.grab == Some(client) then DropGrab(p) else p
    case DrawableGone(draw) => Destroy(p, draw, now)
  }

  /** What the events need of a driver: asked for the drawable it already shows, it goes on showing it. */
  predicate KeepsCurrent(p: Port, e: Event) {
    e.PutOrGetVideo? && e.size == Fits && !HeldByOther(p, e.client) && p.pDraw == Some(e.draw) ==> e.left == p.pDraw
  }

  lemma ShowingTold(log: seq<Notify>, e: Notify)
    ensures Showing(log + [e])
         == match e
            case Started(d) => Some(d)
            case Stopped(d) => if Showing(log) == Some(d) then None else Showing(log)
            case Preempted(d) => if Showing(log) == Some(d) then None else Showing(log)
            case Busy(_) => Showing(log)
  {
    assert (log + [e])[..|log|] == log;
  }

  /** The condition is exact: with any other driver the events no longer tell what the port shows. */
  lemma StepInv(p: Port, e: Event, now: nat)
    requires Inv(p)
    ensures Inv(Step(p, e, now)) <==> KeepsCurrent(p, e)
  {
    hide Showing;
    match e
    case PutOrGetVideo(client, draw, size, left) =>
      if size == Fits {
        if HeldByOther(p, client) {
          ShowingTold(p.log, Busy(draw));
        } else if p.pDraw != Some(draw) {
          var p1 := if p.pDraw.Some? then Tell(p, Preempted(p.pDraw.value)) else p;
          if p.pDraw.Some? {
            ShowingTold(p.log, Preempted(p.pDraw.value));
          }
          if left.Some? {
            ShowingTold(p1.log, Started(left.value));
          }
        }
      }
    case StillOrImage(client, draw, size) =>
      ShowingTold(p.log, Busy(draw));
    case StopVideo(client, draw) =>
      ShowingTold(p.log, Stopped(draw));
      ShowingTold(p.log, Busy(draw));
    case GrabPort(client, time, added) =>
      if p.pDraw.Some? {
        ShowingTold(p.log, Stopped(p.pDraw.value));
      }
    case UngrabPort(client, time) =>
    case ClientGone(client) =>
    case DrawableGone(draw) =>
      ShowingTold(p.log, Preempted(draw));
  }

  lemma StopInv(p: Port, client: Option<Client>, draw: Drawable, now: nat)
    requires Inv(p)
    ensures Inv(Stop(p, client, draw, now))
  {
    hide Showing;
    ShowingTold(p.log, Stopped(draw));
    ShowingTold(p.log, Busy(draw));
  }

  // Whole runs.

  datatype Timed = Timed(event: Event, now: nat)

  function Run(p: Port, run: seq<Timed>): Port
    decreases |run|
  {
    if run == [] then p else Run(Step(p, run[0].event, run[0].now), run[1..])
  }

  /** Server time does not go back, and the driver keeps what it shows when it is asked for that. */
  predicate LegalRun(p: Port, run: seq<Timed>, start: nat)
    decreases |run|
  {
    run != [] ==>
      start <= run[0].now && KeepsCurrent(p, run[0].event) &&
      LegalRun(Step(p, run[0].event, run[0].now), run[1..], run[0].now)
  }

  lemma StepMovesOn(p: Port, e: Event, now: nat)
    requires p.time <= now
    ensures var q := Step(p, e, now); p.log <= q.log && p.time <= q.time <= now
  {
  }

  lemma {:induction false} RunInv(p: Port, run: seq<Timed>, start: nat)
    requires Inv(p) && p.time <= start && LegalRun(p, run, start)
    ensures var q := Run(p, run);
            Inv(q) && p.time <= q.time && p.log <= q.log &&
            q.time <= if run == [] then start else run[|run| - 1].now
    decreases |run|
  {
    hide Step, Inv, KeepsCurrent;
    if run != [] {
      StepInv(p, run[0].event, run[0].now);
      StepMovesOn(p, run[0].event, run[0].now);
      RunInv(Step(p, run[0].event, run[0].now), run[1..], run[0].now);
    }
  }

  /** From the start of the server the notifications give the drawable, and active video on a held port is the holder's. */
  lemma NotificationsTellAll(run: seq<Timed>)
    requires LegalRun(INITIAL, run, 0)
    ensures var q := Run(INITIAL, run);
            Showing(q.log) == q.pDraw &&
            (q.grab.Some? && q.pDraw.Some? ==> q.client == q.grab)
  {
    RunInv(INITIAL, run, 0);
  }

  /** The client an event comes from */
  function Sender(e: Event): Option<Client> {
    match e
    case PutOrGetVideo(client, _, _, _) => Some(client)
    case StillOrImage(client, _, _) => Some(client)
    case StopVideo(client, _) => Some(client)
    case GrabPort(client, _, _) => Some(client)
    case UngrabPort(client, _) => Some(client)
    case ClientGone(client) => Some(client)
    case DrawableGone(_) => None
  }

  /** While a client holds the port, others can do no more than be told so, for any number of requests. */
  lemma {:induction false} GrabProtects(p: Port, run: seq<Timed>, holder: Client)
    requires p.grab == Some(holder)
    requires forall i | 0 <= i < |run| :: Sender(run[i].event).Some? && Sender(run[i].event) != Some(holder)
    ensures var q := Run(p, run);
            p.log <= q.log && q == p.(log := q.log)
    decreases |run|
  {
    if run != [] {
      var p1 := Step(p, run[0].event, run[0].now);
      assert p.log <= p1.log && p1 == p.(log := p1.log);
      GrabProtects(p1, run[1..], holder);
    }
  }

  /** When a client goes away the port is free if it was the client's, and as it was if not. */
  lemma GoneReleases(p: Port, client: Client, now: nat)
    ensures var q := Step(p, ClientGone(client), now);
      && q.grab != Some(client) && (p.grab != Some(client) ==> q == p)
      && (p.grab == Some(client) ==>
            q.grab.None? && q.pDraw == p.pDraw && q.client == p.client && q.time == p.time && q.log == p.log)
  {
  }

  // The port record itself, as the requests change it.

  class XvPort {
    var pDraw: Option<Drawable>
    var client: Option<Client>
    var grab: Option<Client>
    var time: nat
    var log: seq<Notify>

    ghost function S(): Port
      reads this
    {
      Port(pDraw, client, grab, time, log)
    }

    constructor ()
      ensures S() == INITIAL
    {
      pDraw, client, grab, time, log := None, None, None, 0, [];
    }

    method SendVideoNotify(e: Notify)
      modifies this`log
      ensures log == old(log) + [e]
    {
      log := log + [e];
    }

    /** XvdiPutVideo and XvdiGetVideo; the driver sets pDraw to `left`. */
    method PutVideo(sender: Client, draw: Drawable, vidW: nat, vidH: nat, drwW: nat, drwH: nat, left: Option<Drawable>,
                    now: nat)
      returns (status: Status)
      modifies this
      ensures S() == Video(old(S()), sender, draw, CheckSize(drwW, drwH, vidW, vidH), left, now)
      ensures status == if CheckSize(drwW, drwH, vidW, vidH) == TooLarge then BadValue else Success
      // the notifications go on telling what is shown exactly if a driver asked for the drawable it shows keeps to it
      ensures old(Inv(S())) ==>
                (Inv(S()) <==>
                 (CheckSize(drwW, drwH, vidW, vidH) == Fits && !HeldByOther(old(S()), sender)
                   && old(pDraw) == Some(draw) ==>
                    left == Some(draw)))
      ensures grab == old(grab) && (HeldByOther(old(S()), sender) ==> pDraw == old(pDraw) && client == old(client))
      // sizes of 0 do nothing, larger ones than 32767 are refused, and a port held by another is busy
      ensures drwW == 0 || drwH == 0 || vidW == 0 || vidH == 0 ==> status == Success && S() == old(S())
      ensures drwW > 0 && drwH > 0 && vidW > 0 && vidH > 0 ==>
                if drwW > 32767 || drwH > 32767 || vidW > 32767 || vidH > 32767 then status == BadValue && S() == old(S())
                else status == Success &&
                     (old(grab).Some? && old(grab) != Some(sender) ==> S() == old(S()).(log := old(log) + [Busy(draw)]))
      // otherwise the driver's drawable is shown: the end of the video before is told, and the new one is the sender's
      ensures 0 < drwW <= 32767 && 0 < drwH <= 32767 && 0 < vidW <= 32767 && 0 < vidH <= 32767 ==>
                (old(grab).None? || old(grab) == Some(sender)) ==>
                && pDraw == left && time == now
                && if old(pDraw) == Some(draw) then client == old(client) && log == old(log)
                   else
                     && client == (if left.Some? then Some(sender) else old(client))
                     && log == old(log) + (if old(pDraw).Some? then [Preempted(old(pDraw).value)] else [])
                                        + (if left.Some? then [Started(left.value)] else [])
    {
      if Inv(S()) {
        StepInv(S(), Event.PutOrGetVideo(sender, draw, CheckSize(drwW, drwH, vidW, vidH), left), now);
      }
      if drwW == 0 || drwH == 0 || vidW == 0 || vidH == 0 {
        return Success;
      }
      if drwW > 32767 || drwH > 32767 || vidW > 32767 || vidH > 32767 {
        return BadValue;
      }
      if grab.Some? && grab != Some(sender) {
        SendVideoNotify(Busy(draw));
        return Success;
      }
      var pOldDraw := pDraw;
      if pOldDraw.Some? && pOldDraw != Some(draw) {
        SendVideoNotify(Preempted(pOldDraw.value));
      }
      pDraw := left;
      if pDraw.Some? && pOldDraw != Some(draw) {
        client := Some(sender);
        SendVideoNotify(Started(pDraw.value));
      }
      time := now;
      return Success;
    }

    /** XvdiPutStill, XvdiGetStill and XvdiPutImage */
    method PutStill(sender: Client, draw: Drawable, vidW: nat, vidH: nat, drwW: nat, drwH: nat, now: nat)
      returns (status: Status)
      modifies this
      ensures S() == Still(old(S()), sender, draw, CheckSize(drwW, drwH, vidW, vidH), now)
      ensures status == if CheckSize(drwW, drwH, vidW, vidH) == TooLarge then BadValue else Success
      // a picture is put over the video, if any, and the notifications go on telling what is shown
      ensures pDraw == old(pDraw) && client == old(client) && grab == old(grab) && (old(Inv(S())) ==> Inv(S()))
      // sizes of 0 do nothing, larger ones than 32767 are refused, and a port held by another is busy
      ensures drwW == 0 || drwH == 0 || vidW == 0 || vidH == 0 ==> status == Success && S() == old(S())
      ensures drwW > 0 && drwH > 0 && vidW > 0 && vidH > 0 ==>
                if drwW > 32767 || drwH > 32767 || vidW > 32767 || vidH > 32767 then status == BadValue && S() == old(S())
                else status == Success &&
                     (old(grab).Some? && old(grab) != Some(sender) ==> S() == old(S()).(log := old(log) + [Busy(draw)]))
      ensures 0 < drwW <= 32767 && 0 < drwH <= 32767 && 0 < vidW <= 32767 && 0 < vidH <= 32767 ==>
                (old(grab).None? || old(grab) == Some(sender) ==> S() == old(S()).(time := now))
    {
      if Inv(S()) {
        StepInv(S(), Event.StillOrImage(sender, draw, CheckSize(drwW, drwH, vidW, vidH)), now);
      }
      if drwW == 0 || drwH == 0 || vidW == 0 || vidH == 0 {
        return Success;
      }
      if drwW > 32767 || drwH > 32767 || vidW > 32767 || vidH > 32767 {
        return BadValue;
      }
      if grab.Some? && grab != Some(sender) {
        SendVideoNotify(Busy(draw));
        return Success;
      }
      time := now;
      return Success;
    }

    /** XvdiStopVideo */
    method StopVideo(sender: Option<Client>, draw: Drawable, now: nat)
      modifies this
      ensures S() == Stop(old(S()), sender, draw, now)
      // the video stops if it is in the drawable named and the sender's to stop, and replaying the events says so
      ensures old(Inv(S())) ==>
                Inv(S()) && grab == old(grab) &&
                Showing(log) == if old(pDraw) == Some(draw) && !(sender.Some?
                  && HeldByOther(old(S()), sender.value)) then None
                                else old(pDraw)
      // another drawable is told to have stopped, which it had; one that is another's to stop is busy
      ensures if old(pDraw) != Some(draw) then S() == old(S()).(log := old(log) + [Stopped(draw)])
              else if sender.Some? && old(grab).Some? && old(grab) != sender then
                S() == old(S()).(log := old(log) + [Busy(draw)])
              else pDraw.None? && client == sender && time == now && log == old(log) + [Stopped(draw)]
    {
      if Inv(S()) {
        StopInv(S(), sender, draw, now);
      }
      if pDraw.None? || pDraw != Some(draw) {
        SendVideoNotify(Stopped(draw));
        return;
      }
      if sender.Some? && grab.Some? && grab != sender {
        SendVideoNotify(Busy(draw));
        return;
      }
      SendVideoNotify(Stopped(draw));
      pDraw, client, time := None, sender, now;
    }

    /** XvdiGrabPort */
    method GrabPort(sender: Client, ctime: nat, added: bool, now: nat) returns (status: Status, result: GrabResult)
      modifies this
      ensures S() == Grab(old(S()), sender, ctime, added, now)
      ensures status == BadAlloc <==> GrabOutcome(old(S()), sender, ctime, now) == Granted && old(grab).None? && !added
      ensures status != BadAlloc ==> status == Success && result == GrabOutcome(old(S()), sender, ctime, now)
      // with success the port is the client's, and no video but the client's own is active
      ensures status == Success && result == Granted ==> grab == Some(sender)
      ensures old(Inv(S())) ==>
                Inv(S()) && (status == Success && result == Granted && pDraw.Some? ==> client == Some(sender))
      // a port held by another is refused, and one that is not only with a time outside the last change and now
      ensures status == Success ==>
                (result == AlreadyGrabbed <==> old(grab).Some? && old(grab) != Some(sender)) &&
                (result == Granted <==> (old(grab).None? || old(grab) == Some(sender)) && old(time) <= ctime <= now)
      // the grabber's own video goes on; another's is stopped and its end is told; refused, nothing changes
      ensures status == Success && result == Granted && old(grab).None? ==>
                time == now &&
                if old(pDraw).Some? && old(client) != Some(sender) then
                  pDraw.None? && log == old(log) + [Stopped(old(pDraw).value)]
                else pDraw == old(pDraw) && client == old(client) && log == old(log)
      ensures status != Success || result != Granted || old(grab).Some? ==> S() == old(S())
    {
      if Inv(S()) {
        StepInv(S(), Event.GrabPort(sender, ctime, added), now);
      }
      if grab.Some? && grab != Some(sender) {
        return Success, AlreadyGrabbed;
      }
      if ctime > now || ctime < time {
        return Success, InvalidTime;
      }
      if grab == Some(sender) {
        return Success, Granted;
      }
      if !added {
        return BadAlloc, Granted;
      }
      if pDraw.Some? && client != Some(sender) {
        StopVideo(None, pDraw.value, now);
      }
      grab, time := Some(sender), now;
      return Success, Granted;
    }

    /** XvdiUngrabPort, which frees the grab through its delete callback */
    method UngrabPort(sender: Client, ctime: nat, now: nat)
      modifies this
      ensures S() == Ungrab(old(S()), sender, ctime, now)
      // the holder, and no other, gives the port up, with its video as it is; any client may take it from this time on
      ensures grab.None? <==> old(grab).None? || (old(grab) == Some(sender) && old(time) <= ctime <= now)
      ensures pDraw == old(pDraw) && client == old(client) && log == old(log) && (old(Inv(S())) ==> Inv(S()))
      ensures if old(grab).Some? && grab.None? then time == now else time == old(time) && grab == old(grab)
      ensures old(grab).Some? && grab.None? ==>
                forall other, t :: GrabOutcome(S(), other, t, now) == if t == now then Granted else InvalidTime
    {
      if grab.None? || grab != Some(sender) {
        return;
      }
      if ctime > now || ctime < time {
        return;
      }
      grab := None;
      time := now;
    }
  }

  /** The ports of an adaptor: those that show the drawable are stopped. */
  method StopAdaptor(pPorts: seq<XvPort>, draw: Drawable, now: nat)
    modifies set pp | pp in pPorts
    ensures forall pp | pp in pPorts :: pp.S() == Destroy(old(pp.S()), draw, now)
  {
    for k := 0 to |pPorts|
      invariant forall pp | pp in pPorts ::
                  pp.S() == if pp in pPorts[..k] then Destroy(old(pp.S()), draw, now) else old(pp.S())
    {
      var pp := pPorts[k];
      assert pPorts[..k + 1] == pPorts[..k] + [pp];
      if pp.pDraw == Some(draw) {
        pp.SendVideoNotify(Preempted(draw));
        pp.pDraw, pp.client, pp.time := None, None, now;
      }
    }
  }

  /** XvStopAdaptors: afterwards no port of any adaptor shows the drawable, and the other ports are as they were. */
  method StopAdaptors(adaptors: seq<seq<XvPort>>, draw: Drawable, now: nat)
    modifies set i, pp | 0 <= i < |adaptors| && pp in adaptors[i] :: pp
    ensures forall i, pp | 0 <= i < |adaptors| && pp in adaptors[i] ::
              pp.S() == Destroy(old(pp.S()), draw, now) && pp.pDraw != Some(draw) && pp.grab == old(pp.grab) &&
              // what was shown there is told to have ended, and the ports that showed something else do not notice
              if old(pp.pDraw) == Some(draw) then
                pp.pDraw.None? && pp.client.None? && pp.time == now && pp.log == old(pp.log) + [Preempted(draw)]
              else pp.S() == old(pp.S())
  {
    for i := 0 to |adaptors|
      invariant forall j, pp | 0 <= j < i && pp in adaptors[j] :: pp.S() == Destroy(old(pp.S()), draw, now)
      invariant forall j, pp | i <= j < |adaptors| && pp in adaptors[j] ::
                  pp.S() == old(pp.S()) || pp.S() == Destroy(old(pp.S()), draw, now)
    {
      StopAdaptor(adaptors[i], draw, now);
    }
  }
}
