/** The forwarding loop as it is written, with its variables, against the
    machine of `Broker` (src/app_server.c). Other threads act between any two
    atomic steps of the loop: they queue messages, mark events and interrupt. */
module Server {
  import opened Common
  import opened Wire
  import opened DumpFormat
  import opened Dump
  import opened Send
  import opened Broker
  import opened Routes
  import opened Integrity

  predicate Fits(m: Message) {
    forall i :: 0 <= i < |m| ==> |m[i]| <= INT_MAX
  }

  /** What another thread does. */
  type Foreign = e: Event | !e.Tick? && (e.Arrive? ==> Fits(e.m)) witness Interrupt

  /** What happens just before a step of the loop, and the outcome of the library
      calls in it. */
  datatype Slot = Slot(others: seq<Foreign>, outcome: Outcome)

  /** The first `n` steps of the loop with everything in between. */
  function TraceOf(schedule: nat -> Slot, n: nat): seq<Event> {
    if n == 0 then [] else TraceOf(schedule, n - 1) + schedule(n - 1).others + [Tick(schedule(n - 1).outcome)]
  }

  /** From step `n` on, no other thread does anything and no call fails. */
  ghost predicate Undisturbed(schedule: nat -> Slot, n: nat) {
    forall k: nat :: n <= k ==> schedule(k).others == [] && Succeeds(Tick(schedule(k).outcome)) && !schedule(k).outcome.pollFails
  }

  lemma NextStep(cfg: Config, schedule: nat -> Slot, n: nat)
    ensures Exec(cfg, TraceOf(schedule, n + 1))
            == Step(cfg, Exec(cfg, TraceOf(schedule, n) + schedule(n).others), schedule(n).outcome)
  {
    hide Step;
    ExecSnoc(cfg, TraceOf(schedule, n) + schedule(n).others, Tick(schedule(n).outcome));
  }

  lemma OneMore(cfg: Config, before: seq<Event>, es: seq<Event>, i: nat)
    requires i < |es|
    ensures Exec(cfg, before + es[..i + 1]) == Next(cfg, Exec(cfg, before + es[..i]), es[i])
  {
    hide Next;
    ExecSnoc(cfg, before + es[..i], es[i]);
    assert before + es[..i + 1] == (before + es[..i]) + [es[i]];
  }

  /** The variables of the loop and what it shares with the other threads. */
  class Loop {
    const cfg: Config
    const sender: Sender
    /** The event words of the monitors. */
    const words: array<Word>
    const schedule: nat -> Slot
    var clock: nat
    var inbox: seq<Message>
    var cur: Message
    var connect: int
    var interrupted: bool
    ghost var arrived: seq<Message>
    /** The connections there really are; the loop never looks at them. */
    var live: seq<nat>

    ghost predicate Valid()
      reads this, sender, sender.dump, words
    {
      && sender.Valid() && sender.codec == cfg.codec && (sender.dump != null <==> cfg.hasDump)
      && words.Length == cfg.endpoints == |live|
      && Fits(cur) && forall i :: 0 <= i < |inbox| ==> Fits(inbox[i]) && inbox[i] != []
    }

    /** The state of the machine that the variables stand for. */
    ghost function Now(pc: PC): State
      reads this, sender, sender.dump, words
    {
      State(arrived, inbox, cur, sender.View(), Watch(words[..], live, connect), pc, interrupted)
    }

    /** The loop is at `pc`, in the state that the machine is in after the same
        events. */
    ghost predicate At(pc: PC)
      reads this, sender, sender.dump, words
    {
      Valid() && Now(pc) == Exec(cfg, TraceOf(schedule, clock))
    }

    constructor (cfg: Config, sender: Sender, schedule: nat -> Slot)
      requires sender.Valid() && sender.View() == EMPTY
      requires sender.codec == cfg.codec && (sender.dump != null <==> cfg.hasDump)
      ensures this.cfg == cfg && this.sender == sender && this.schedule == schedule
      ensures clock == 0 && At(Poll) && fresh(words)
    {
      this.cfg, this.sender, this.schedule := cfg, sender, schedule;
      words := new Word[cfg.endpoints](_ => CLEAR);
      inbox, cur, connect, interrupted := [], [], 0, false;
      clock, arrived, live := 0, [], seq(cfg.endpoints, _ => 0);
      new;
      assert words[..] == seq(cfg.endpoints, _ => CLEAR);
    }

    /** Another thread's event. */
    method Disturb(ghost pc: PC, e: Foreign)
      requires Valid()
      modifies this, words
      ensures Valid() && Now(pc) == Next(cfg, old(Now(pc)), e)
      ensures clock == old(clock) && cur == old(cur) && connect == old(connect)
    {
      hide Sender.Valid, Sender.View;
      match e
      case Arrive(m) =>
        if m != [] {
          inbox := inbox + [m];
          arrived := arrived + [m];
        }
      case Interrupt =>
        interrupted := true;
      case Raise(i, up) =>
        if i < words.Length { Mark(pc, i, up); }
    }

    /** A connection comes or goes, and the monitor marks it. */
    method Mark(ghost pc: PC, i: nat, up: bool)
      requires Valid() && i < words.Length
      modifies this`live, words
      ensures Valid() && Now(pc) == old(Now(pc)).(watch := RaiseEvent(cfg, old(Now(pc)).watch, i, up))
    {
      hide FromRecords, Sender.Valid, Sender.View;
      ghost var was := words[..];
      if up && !(cfg.dials && live[i] > 0) {
        live := live[i := live[i] + 1];
        words[i] := words[i].(up := true);
        assert words[..] == was[i := was[i].(up := true)];
      } else if !up && live[i] > 0 {
        live := live[i := live[i] - 1];
        words[i] := words[i].(down := true);
        assert words[..] == was[i := was[i].(down := true)];
      }
    }

    /** All that happens before the loop's next step. */
    method Others(ghost pc: PC) returns (o: Outcome)
      requires At(pc)
      modifies this, words
      ensures Valid() && clock == old(clock) + 1
      ensures Exec(cfg, TraceOf(schedule, clock)) == Step(cfg, Now(pc), o)
      ensures cur == old(cur) && connect == old(connect)
      ensures o == schedule(old(clock)).outcome
      ensures schedule(old(clock)).others == [] ==> inbox == old(inbox) && interrupted == old(interrupted)
    {
      hide Step, Next, Exec, TraceOf, FromRecords, Sender.Valid, Sender.View;
      ghost var before := TraceOf(schedule, clock);
      NextStep(cfg, schedule, clock);
      var slot := schedule(clock);
      var i := 0;
      assert before + slot.others[..0] == before;
      while i < |slot.others|
        invariant 0 <= i <= |slot.others|
        invariant Valid() && clock == old(clock) && cur == old(cur) && connect == old(connect)
        invariant Now(pc) == Exec(cfg, before + slot.others[..i])
        invariant i == 0 ==> inbox == old(inbox) && interrupted == old(interrupted)
      {
        OneMore(cfg, before, slot.others, i);
        Disturb(pc, slot.others[i]);
        i := i + 1;
      }
      assert slot.others[..i] == slot.others;
      o := slot.outcome;
      clock := clock + 1;
    }

    /** One frame: the key first, if it is due; then the frame, unless it is
        dropped. */
    method Forward(kind: SendType, frames: nat, frame: Frame, more: bool, o: Outcome)
      requires Valid()
      modifies sender, sender.dump
      ensures Valid()
      ensures sender.View() == ForwardFrame(cfg, kind, frames, Part(frame, more), o, old(sender.View()))
    {
      hide SendMsg;
      if cfg.key.Some? && frames == 0 && o.keySent {
        sender.wire := sender.wire + [Part(cfg.key.value, true)];
      }
      if !(cfg.dropFirst && frames == 0) {
        var _ := sender.Sendmsg(kind, frame, more, o.calls);
      }
    }

    /** A frame is received and passed on. */
    method TakeFrame(kind: SendType, frames: nat, o: Outcome) returns (more: bool)
      requires Valid() && (cur != [] || inbox != [])
      modifies this`cur, this`inbox, sender, sender.dump
      ensures Valid() && |cur| < |if old(cur) != [] then old(cur) else old(inbox)[0]|
      ensures more <==> cur != []
      ensures inbox == if old(cur) != [] then old(inbox) else old(inbox)[1..]
      ensures Now(if more then Receive(kind, frames + 1) else TestUp(0))
              == ReceiveFrame(cfg, old(Now(Receive(kind, frames))), o)
    {
      hide ForwardFrame, FromRecords;
      if cur == [] {
        cur, inbox := inbox[0], inbox[1..];
      }
      var frame := cur[0];
      more := |cur| > 1;
      cur := cur[1..];
      Forward(kind, frames, frame, more, o);
    }

    /** The inner loop: one message, frame by frame; undisturbed, it takes exactly
        the first message of the queue. */
    method ReceiveMessage(kind: SendType)
      requires At(Receive(kind, 0))
      modifies this, sender, sender.dump, words
      ensures At(TestUp(0)) && clock > old(clock)
      ensures Undisturbed(schedule, old(clock)) && !old(interrupted) && old(cur) == [] && old(inbox) != [] ==>
                !interrupted && cur == [] && inbox == old(inbox)[1..]
    {
      hide Exec, ReceiveFrame, TraceOf, FromRecords, Sender.Valid, Sender.View;
      ghost var undisturbed := Undisturbed(schedule, clock) && !interrupted && cur == [] && inbox != [];
      var frames, more := 0, true;
      while more
        invariant At(if more then Receive(kind, frames) else TestUp(0)) && clock >= old(clock)
        invariant frames > 0 ==> clock > old(clock) && (more <==> cur != [])
        invariant frames == 0 ==> more
        invariant undisturbed ==> !interrupted
        invariant undisturbed ==> if frames == 0 then cur == [] && inbox == old(inbox) else inbox == old(inbox)[1..]
        decreases frames == 0, |cur|
      {
        var o := Others(Receive(kind, frames));
        if interrupted || o.recvFails || (cur == [] && inbox == []) { break; }
        more := TakeFrame(kind, frames, o);
        frames := frames + 1;
      }
    }

    /** A critical section: the call, if the mode makes one, and the count. */
    method Section(ghost pc: PC, i: nat, up: bool, endpointCall: bool)
      requires Valid() && i < words.Length
      modifies this`connect, words
      ensures Valid()
      ensures Now(pc) == old(Now(pc)).(watch :=
                if up then CountUp(cfg, old(Now(pc)).watch, i, endpointCall) else CountDown(cfg, old(Now(pc)).watch, i, endpointCall))
    {
      hide FromRecords, Sender.Valid, Sender.View;
      ghost var was := words[..];
      if endpointCall || !cfg.dials {
        connect := connect + if up then 1 else -1;
        words[i] := CLEAR;
        assert words[..] == was[i := CLEAR];
      }
    }

    method CountNew(i: nat)
      requires At(TestUp(i)) && i < words.Length
      modifies this, words
      ensures At(TestDown(i)) && clock > old(clock) && cur == old(cur)
      ensures Undisturbed(schedule, old(clock)) ==> inbox == old(inbox) && interrupted == old(interrupted)
    {
      hide Exec, ReceiveFrame, TraceOf, RaiseEvent, CountUp, CountDown, FromRecords, Sender.Valid, Sender.View;
      var o := Others(TestUp(i));
      if words[i].up {
        o := Others(LockUp(i));
        Section(TestDown(i), i, true, o.endpointCall);
      }
    }

    method CountGone(i: nat)
      requires At(TestDown(i)) && i < words.Length
      modifies this, words
      ensures At(TestUp(i + 1)) && clock > old(clock) && cur == old(cur)
      ensures Undisturbed(schedule, old(clock)) ==> inbox == old(inbox) && interrupted == old(interrupted)
    {
      hide Exec, ReceiveFrame, TraceOf, RaiseEvent, CountUp, CountDown, FromRecords, Sender.Valid, Sender.View;
      var o := Others(TestDown(i));
      if words[i].down {
        o := Others(LockDown(i));
        Section(TestUp(i + 1), i, false, o.endpointCall);
      }
    }

    /** The connections are counted anew, socket by socket. */
    method Refresh()
      requires At(TestUp(0))
      modifies this, words
      ensures At(Poll) && clock > old(clock) && cur == old(cur)
      ensures Undisturbed(schedule, old(clock)) ==> inbox == old(inbox) && interrupted == old(interrupted)
    {
      hide Exec, ReceiveFrame, TraceOf, Sender.Valid, Sender.View;
      var i := 0;
      while i < words.Length
        invariant 0 <= i <= words.Length && At(TestUp(i)) && clock >= old(clock) && cur == old(cur)
        invariant Undisturbed(schedule, old(clock)) ==> inbox == old(inbox) && interrupted == old(interrupted)
      {
        CountNew(i);
        CountGone(i);
        i := i + 1;
      }
      var _ := Others(TestUp(i));
    }

    /** Once around the loop; undisturbed, it takes one whole message if there is
        one. */
    method Round() returns (done: bool)
      requires At(Poll)
      modifies this, sender, sender.dump, words
      ensures At(if done then Stopped else Poll) && clock > old(clock)
      ensures Undisturbed(schedule, old(clock)) && !old(interrupted) && old(cur) == [] ==>
                !done && !interrupted && cur == [] && inbox == old(inbox)[if old(inbox) == [] then 0 else 1..]
    {
      hide Exec, ReceiveFrame, TraceOf, CountUp, CountDown, Sender.Valid, Sender.View;
      var o := Others(Poll);
      if interrupted || o.pollFails { return true; }
      if cur != [] || inbox != [] {
        var kind := if !cfg.watched || connect > 0 then cfg.live else ToDump;
        ReceiveMessage(kind);
      }
      Refresh();
      return false;
    }

    /** The loop, for as many rounds as it is left to run: wherever it stands, it
        stands where the machine does, so that all that is proved of the
        machine's runs is true of it. Undisturbed, it takes a message a round, so
        that as many rounds as messages empty the queue. */
    method Run(rounds: nat) returns (done: bool)
      requires At(Poll)
      modifies this, sender, sender.dump, words
      ensures At(if done then Stopped else Poll)
      ensures done || clock >= old(clock) + rounds
      ensures Undisturbed(schedule, old(clock)) && !old(interrupted) && old(cur) == [] ==>
                !done && cur == [] && inbox == old(inbox)[if rounds <= |old(inbox)| then rounds else |old(inbox)|..]
    {
      hide Exec, ReceiveFrame, TraceOf, Sender.Valid, Sender.View;
      done := false;
      var n := 0;
      ghost var undisturbed := Undisturbed(schedule, clock) && !interrupted && cur == [];
      while n < rounds && !done
        invariant n <= rounds && At(if done then Stopped else Poll)
        invariant (done || clock >= old(clock) + n) && clock >= old(clock)
        invariant undisturbed ==>
                    !done && !interrupted && cur == [] && inbox == old(inbox)[if n <= |old(inbox)| then n else |old(inbox)|..]
      {
        done := Round();
        n := n + 1;
      }
    }

    /** The loop sends the frames of a message live if its mode keeps no count or
        the count is positive, and dumps them if not. */
    lemma LiveOrDump(kind: SendType, frames: nat)
      requires At(Receive(kind, frames))
      ensures kind == if !cfg.watched || connect > 0 then cfg.live else ToDump
    {
      hide Exec, TraceOf, Sender.Valid, Sender.View;
      KindByCounter(cfg, TraceOf(schedule, clock));
      assert Now(Receive(kind, frames)).pc == Receive(kind, frames);
    }

    /** Wherever the loop is, every frame it took is on the socket, in the dump,
        lost or dropped by the mode. */
    lemma Accounted(pc: PC) returns (entries: seq<Entry>)
      requires At(pc)
      ensures Accounts(cfg, Now(pc), entries)
    {
      hide Accounts, Queued, Exec, TraceOf, Sender.Valid, Sender.View;
      entries := Conservation(cfg, TraceOf(schedule, clock));
    }

    /** Between two rounds, if no call failed and nobody interrupted, there are
        only whole messages on the socket and in the dump, and the dump is
        closed. */
    lemma OnlyWholeMessages()
      requires At(Poll) && IsMode(cfg) && NoFailures(TraceOf(schedule, clock)) && !interrupted
      ensures cur == [] && Open(sender.wire) == []
      ensures sender.dump != null ==> sender.dump.stream != Appending && Open(FromRecords(sender.dump.log)) == []
    {
      hide Exec, TraceOf, Sender.Valid, Open;
      OnlyInterruptsSplit(cfg, TraceOf(schedule, clock));
      assert Now(Poll).link == sender.View();
    }
  }
}
