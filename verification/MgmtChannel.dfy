/** Commands to OpenVPN's management interface, one at a time (client/internal/daemon/openvpn_mgmt.go). */
module MgmtChannel {
  import opened Options
  import opened Text

  const QUEUE_SIZE := 64

  /** What the writer goroutine is doing. */
  datatype Writer = Idle | AwaitingReply | Ended

  /**
   * queue, ack, writer and closed are the channels' contents and the goroutine's place; the rest is history: sent
   * (accepted by the queue), written, counts of replies received and dropped and of timeouts.
   */
  datatype State = State(queue: seq<string>, ack: Option<string>, writer: Writer, closed: bool,
                         sent: seq<string>, written: seq<string>, replies: nat, dropped: nat, timeouts: nat)

  /** A channel just made. */
  predicate New(s: State) {
    && s.queue == s.sent == s.written == [] && s.ack.None? && s.writer == Idle && !s.closed
    && s.replies == s.dropped == s.timeouts == 0
  }

  /** One step of a sender, the writer, the reader, the clock or whoever closes. */
  datatype Step =
    | Send(cmd: string)
    | SendGivenUp(cmd: string)
    | WriteNext
    | TakeAck
    | TimeOut
    | EndWriter
    | Reply(line: string)
    | Close

  // ---- Lines from OpenVPN ---------------------------------------------------------

  /** Prompts come without a newline, so they stick to the next line. */
  function StripPrompts(prompt: string, line: string): (r: string)
    requires prompt != ""
    ensures !StartsWith(r, prompt)
    decreases |line|
  {
    if StartsWith(line, prompt) then StripPrompts(prompt, line[|prompt|..]) else line
  }

  predicate IsReply(line: string) {
    StartsWith(line, "SUCCESS:") || StartsWith(line, "ERROR:")
  }

  const PROMPT := "ENTER PASSWORD:"

  // ---- The protocol ----------------------------------------------------------------

  /** Steps the code can take now. */
  predicate Enabled(s: State, step: Step) {
    match step
    case Send(_) => |s.queue| < QUEUE_SIZE
    case SendGivenUp(_) => s.closed
    case WriteNext => s.writer == Idle && s.queue != []
    case TakeAck => s.writer == AwaitingReply && s.ack.Some?
    case TimeOut => s.writer == AwaitingReply
    case EndWriter => s.closed && s.writer != Ended
    case Reply(_) => true
    case Close => true
  }

  function Next(s: State, step: Step): State
    requires Enabled(s, step)
  {
    match step
    case Send(cmd) => s.(queue := s.queue + [cmd], sent := s.sent + [cmd])
    case SendGivenUp(_) => s
    case WriteNext => s.(queue := s.queue[1..], written := s.written + [s.queue[0]], writer := AwaitingReply)
    case TakeAck => s.(ack := None, writer := Idle)
    case TimeOut => s.(writer := Idle, timeouts := s.timeouts + 1)
    case EndWriter => s.(writer := Ended)
    case Reply(line) =>
      if s.ack.None? then s.(ack := Some(line), replies := s.replies + 1)
      else s.(replies := s.replies + 1, dropped := s.dropped + 1)
    case Close => s.(closed := true)
  }

  ghost predicate Possible(s: State, steps: seq<Step>)
    decreases |steps|
  {
    steps != [] ==> Enabled(s, steps[0]) && Possible(Next(s, steps[0]), steps[1..])
  }

  function Run(s: State, steps: seq<Step>): State
    requires Possible(s, steps)
    decreases |steps|
  {
    if steps == [] then s else Run(Next(s, steps[0]), steps[1..])
  }

  function Slot(s: State): nat {
    if s.ack.Some? then 1 else 0
  }

  /**
   * Every reply was taken for a command, waits in the slot, or was dropped; every command written but the last was
   * answered or given up on.
   */
  predicate Inv(s: State) {
    && s.sent == s.written + s.queue
    && var taken := s.replies - Slot(s) - s.dropped;
       && taken >= 0
       && (s.writer == Idle ==> |s.written| == taken + s.timeouts)
       && (s.writer == AwaitingReply ==> |s.written| == taken + s.timeouts + 1)
       && taken + s.timeouts <= |s.written| <= taken + s.timeouts + 1
  }

  lemma NextKeepsInv(s: State, step: Step)
    requires Inv(s) && Enabled(s, step)
    ensures Inv(Next(s, step))
  {
    var t := Next(s, step);
    match step
    case Send(cmd) => assert t.sent == t.written + t.queue;
    case WriteNext => assert t.sent == t.written + t.queue;
    case _ =>
  }

  lemma {:induction false} RunKeepsInv(s: State, steps: seq<Step>)
    requires Inv(s) && Possible(s, steps)
    ensures Inv(Run(s, steps))
    decreases |steps|
  {
    if steps != [] {
      NextKeepsInv(s, steps[0]);
      RunKeepsInv(Next(s, steps[0]), steps[1..]);
    }
  }

  /**
   * In every interleaving, commands are written in the order sent, and all but one of them were answered or timed out.
   */
  lemma {:induction false} OneAtATime(start: State, steps: seq<Step>)
    requires New(start) && Possible(start, steps)
    ensures var s := Run(start, steps);
            s.written <= s.sent && s.sent[|s.written|..] == s.queue && |s.written| - s.replies <= 1 + s.timeouts
  {
    RunKeepsInv(start, steps);
  }

  /** However fast commands are sent, no more than 64 wait. */
  lemma {:induction false} QueueStaysBounded(start: State, steps: seq<Step>)
    requires |start.queue| <= 64 && Possible(start, steps)
    ensures |Run(start, steps).queue| <= 64
    decreases |steps|
  {
    if steps != [] {
      QueueStaysBounded(Next(start, steps[0]), steps[1..]);
    }
  }

  // ---- Nobody waits for ever ------------------------------------------------------------------

  /** A reply or a timeout lets the next command out. */
  lemma WriterGoesOn(s: State, step: Step)
    requires s.writer == AwaitingReply && s.queue != [] && (step == TimeOut || (step == TakeAck && s.ack.Some?))
    ensures Enabled(s, step) && Enabled(Next(s, step), WriteNext)
    ensures Next(Next(s, step), WriteNext).written == s.written + [s.queue[0]]
    ensures Next(s, TimeOut).ack == s.ack && (step == TakeAck ==> Next(s, step).ack.None?)
  {
  }

  lemma {:induction false} StaysClosed(s: State, steps: seq<Step>)
    requires s.closed && Possible(s, steps)
    ensures Run(s, steps).closed
    decreases |steps|
  {
    if steps != [] {
      StaysClosed(Next(s, steps[0]), steps[1..]);
    }
  }

  /** In every state after closing, senders and the writer can leave. */
  lemma {:induction false} ClosingLetsGo(s: State, steps: seq<Step>, cmd: string)
    requires Possible(Next(s, Close), steps)
    ensures var t := Run(Next(s, Close), steps);
            && Enabled(t, SendGivenUp(cmd))
            && (t.writer != Ended ==> Enabled(t, EndWriter) && Next(t, EndWriter).writer == Ended)
  {
    StaysClosed(Next(s, Close), steps);
  }

  /** A writer that ended writes nothing any more. */
  lemma {:induction false} StaysEnded(s: State, steps: seq<Step>)
    requires s.writer == Ended && Possible(s, steps)
    ensures Run(s, steps).writer == Ended && Run(s, steps).written == s.written
    decreases |steps|
  {
    if steps != [] {
      StaysEnded(Next(s, steps[0]), steps[1..]);
    }
  }

  // ---- No acknowledgement is lost ----------------------------------------------------

  /** OpenVPN answers a written command at most once, and never answers ahead. */
  ghost predicate AnswersOnce(s: State, steps: seq<Step>)
    requires Possible(s, steps)
    decreases |steps|
  {
    steps != [] ==> (steps[0].Reply? ==> s.replies < |s.written|) && AnswersOnce(Next(s, steps[0]), steps[1..])
  }

  lemma {:induction false} DropsWithinTimeouts(s: State, steps: seq<Step>)
    requires Inv(s) && s.dropped <= s.timeouts && Possible(s, steps) && AnswersOnce(s, steps)
    ensures Run(s, steps).dropped <= Run(s, steps).timeouts
    decreases |steps|
  {
    if steps != [] {
      NextKeepsInv(s, steps[0]);
      DropsWithinTimeouts(Next(s, steps[0]), steps[1..]);
    }
  }

  /** At most as many replies are dropped as timeouts happened; without timeouts, none. */
  lemma {:induction false} RepliesLostOnlyByTimeouts(start: State, steps: seq<Step>)
    requires New(start) && Possible(start, steps) && AnswersOnce(start, steps)
    ensures Run(start, steps).dropped <= Run(start, steps).timeouts
  {
    DropsWithinTimeouts(start, steps);
  }

  lemma {:induction false} RunConcat(s: State, a: seq<Step>, b: seq<Step>)
    requires Possible(s, a) && Possible(Run(s, a), b)
    ensures Possible(s, a + b) && Run(s, a + b) == Run(Run(s, a), b)
    ensures AnswersOnce(s, a + b) <==> AnswersOnce(s, a) && AnswersOnce(Run(s, a), b)
    decreases |a|
  {
    if a == [] {
      assert a + b == b;
    } else {
      assert (a + b)[1..] == a[1..] + b;
      RunConcat(Next(s, a[0]), a[1..], b);
    }
  }

  /** A run that is possible, with the answers of a server that answers once. */
  ghost predicate Leads(s: State, steps: seq<Step>, e: State) {
    Possible(s, steps) && AnswersOnce(s, steps) && Run(s, steps) == e
  }

  lemma LeadsConcat(s: State, a: seq<Step>, m: State, b: seq<Step>, e: State)
    requires Leads(s, a, m) && Leads(m, b, e)
    ensures Leads(s, a + b, e)
  {
    RunConcat(s, a, b);
  }

  lemma LeadsOne(s: State, step: Step)
    requires Enabled(s, step) && (step.Reply? ==> s.replies < |s.written|)
    ensures Leads(s, [step], Next(s, step))
  {
    assert [step][1..] == [];
  }

  /** Commands sent, written and given up on, one after the other. */
  function Unanswered(cmds: seq<string>): seq<Step> {
    if cmds == [] then [] else Unanswered(cmds[..|cmds| - 1]) + [Send(cmds[|cmds| - 1])] + [WriteNext] + [TimeOut]
  }

  function Replies(lines: seq<string>): seq<Step> {
    if lines == [] then [] else Replies(lines[..|lines| - 1]) + [Reply(lines[|lines| - 1])]
  }

  lemma WriteOne(s: State, cmd: string, w: State)
    requires s.queue == [] && s.writer == Idle
    requires w == s.(sent := s.sent + [cmd], written := s.written + [cmd], writer := AwaitingReply)
    ensures Leads(s, [Send(cmd)] + [WriteNext], w)
  {
    var q := Next(s, Send(cmd));
    assert q.queue == [cmd] && q.queue[1..] == [];
    LeadsOne(s, Send(cmd));
    LeadsOne(q, WriteNext);
    LeadsConcat(s, [Send(cmd)], q, [WriteNext], w);
  }

  lemma LoseOne(s: State, cmd: string, e: State)
    requires s.queue == [] && s.writer == Idle
    requires e == s.(sent := s.sent + [cmd], written := s.written + [cmd], timeouts := s.timeouts + 1)
    ensures Leads(s, [Send(cmd)] + [WriteNext] + [TimeOut], e)
  {
    var w := e.(writer := AwaitingReply, timeouts := s.timeouts);
    WriteOne(s, cmd, w);
    LeadsOne(w, TimeOut);
    LeadsConcat(s, [Send(cmd)] + [WriteNext], w, [TimeOut], e);
  }

  lemma StepsAssoc(a: seq<Step>, b: seq<Step>, c: seq<Step>, d: seq<Step>)
    ensures a + b + c + d == a + (b + c + d)
  {
  }

  lemma {:induction false} LoseAll(start: State, cmds: seq<string>)
    requires New(start)
    ensures Leads(start, Unanswered(cmds), start.(sent := cmds, written := cmds, timeouts := |cmds|))
  {
    if cmds != [] {
      var front, last := cmds[..|cmds| - 1], cmds[|cmds| - 1];
      var m := start.(sent := front, written := front, timeouts := |front|);
      LoseAll(start, front);
      assert front + [last] == cmds;
      var e := start.(sent := cmds, written := cmds, timeouts := |cmds|);
      LoseOne(m, last, e);
      LeadsConcat(start, Unanswered(front), m, [Send(last)] + [WriteNext] + [TimeOut], e);
      StepsAssoc(Unanswered(front), [Send(last)], [WriteNext], [TimeOut]);
    }
  }

  lemma {:induction false} OneSlot(s: State, lines: seq<string>)
    requires s.ack.None? && s.replies + |lines| <= |s.written| && lines != []
    ensures Leads(s, Replies(lines),
                  s.(ack := Some(lines[0]), replies := s.replies + |lines|, dropped := s.dropped + |lines| - 1))
    decreases |lines|
  {
    var front, last := lines[..|lines| - 1], lines[|lines| - 1];
    if front == [] {
      LeadsOne(s, Reply(last));
      assert Replies(front) == [] && [] + [Reply(last)] == [Reply(last)];
    } else {
      OneSlot(s, front);
      var m := s.(ack := Some(front[0]), replies := s.replies + |front|, dropped := s.dropped + |front| - 1);
      LeadsOne(m, Reply(last));
      LeadsConcat(s, Replies(front), m, [Reply(last)], Next(m, Reply(last)));
    }
  }

  /** Timeouts do cost replies, as many as there were: commands given up on, then one more, and all replies at once. */
  lemma {:induction false} LateRepliesAreDropped(start: State, cmds: seq<string>, last: string)
    requires New(start)
    ensures var steps := Unanswered(cmds) + ([Send(last)] + [WriteNext]) + Replies(cmds + [last]);
            Possible(start, steps) && AnswersOnce(start, steps)
            && Run(start, steps).dropped == Run(start, steps).timeouts == |cmds|
  {
    var all := cmds + [last];
    var m := start.(sent := cmds, written := cmds, timeouts := |cmds|);
    var w := m.(sent := all, written := all, writer := AwaitingReply);
    var e := w.(ack := Some(all[0]), replies := |all|, dropped := |cmds|);
    LoseAll(start, cmds);
    WriteOne(m, last, w);
    OneSlot(w, all);
    LeadsConcat(start, Unanswered(cmds), m, [Send(last)] + [WriteNext], w);
    LeadsConcat(start, Unanswered(cmds) + ([Send(last)] + [WriteNext]), w, Replies(all), e);
  }

  // ---- The channel as the daemon's object -----------------------------------------------

  class Channel {
    var queue: seq<string>
    var ack: Option<string>
    var writer: Writer
    var closed: bool
    ghost var sent: seq<string>
    ghost var written: seq<string>
    ghost var replies: nat
    ghost var dropped: nat
    ghost var timeouts: nat

    ghost function View(): State
      reads this
    {
      State(queue, ack, writer, closed, sent, written, replies, dropped, timeouts)
    }

    constructor ()
      ensures New(View())
    {
      queue, ack, writer, closed := [], None, Idle, false;
      sent, written, replies, dropped, timeouts := [], [], 0, 0, 0;
    }

    /** Both ways out may be open: preferQueue is the runtime's choice. A sender for whom none is open waits. */
    method SendCommand(cmd: string, preferQueue: bool) returns (queued: bool)
      requires |queue| < QUEUE_SIZE || closed
      modifies this
      ensures var step := if queued then Send(cmd) else SendGivenUp(cmd);
              Enabled(old(View()), step) && View() == Next(old(View()), step)
    {
      queued := |queue| < QUEUE_SIZE && (preferQueue || !closed);
      if queued {
        queue := queue + [cmd];
        sent := sent + [cmd];
      }
    }

    /** The next command goes out; the writer then waits. */
    method WriteCommand() returns (cmd: string)
      requires writer == Idle && queue != []
      modifies this
      ensures View() == Next(old(View()), WriteNext) && cmd == old(queue)[0]
    {
      cmd := queue[0];
      queue := queue[1..];
      written := written + [cmd];
      writer := AwaitingReply;
    }

    method AwaitReply(expired: bool)
      requires writer == AwaitingReply && (ack.Some? || expired || closed)
      modifies this
      ensures exists step :: step in {TakeAck, TimeOut, EndWriter} &&
                             Enabled(old(View()), step) && View() == Next(old(View()), step)
    {
      if ack.Some? {
        ack, writer := None, Idle;
        assert View() == Next(old(View()), TakeAck);
      } else if expired {
        writer, timeouts := Idle, timeouts + 1;
        assert View() == Next(old(View()), TimeOut);
      } else {
        writer := Ended;
        assert View() == Next(old(View()), EndWriter);
      }
    }

    /** Replies go to the slot, or nowhere if it is taken; everything else is handed back without its prompts. */
    method Classify(line: string) returns (notification: string, isReply: bool)
      modifies this
      ensures var text := StripPrompts(PROMPT, line);
              && isReply == IsReply(text)
              && notification == (if isReply then "" else text)
              && View() == if isReply then Next(old(View()), Reply(text)) else old(View())
    {
      var text := line;
      while StartsWith(text, PROMPT)
        invariant StripPrompts(PROMPT, text) == StripPrompts(PROMPT, line)
        decreases |text|
      {
        text := text[|PROMPT|..];
      }
      isReply := IsReply(text);
      notification := if isReply then "" else text;
      if isReply {
        replies := replies + 1;
        if ack.None? {
          ack := Some(text);
        } else {
          dropped := dropped + 1;
        }
      }
    }

    method CloseChannel()
      modifies this
      ensures View() == Next(old(View()), Close)
    {
      closed := true;
    }
  }

  lemma PromptsFirst(prompt: string, n: nat, line: string)
    requires n > 0
    ensures Prompts(prompt, n) + line == prompt + (Prompts(prompt, n - 1) + line)
  {
  }

  /** Any number of prompts in front of a line makes no difference, and nothing else is taken away. */
  lemma {:induction false} PromptsAreTransparent(prompt: string, n: nat, line: string)
    requires prompt != ""
    ensures StripPrompts(prompt, Prompts(prompt, n) + line) == StripPrompts(prompt, line)
    ensures !StartsWith(line, prompt) ==> StripPrompts(prompt, Prompts(prompt, n) + line) == line
  {
    if n > 0 {
      PromptsAreTransparent(prompt, n - 1, line);
      PromptsFirst(prompt, n, line);
    } else {
      assert "" + line == line;
    }
  }

  /** Replies are the lines of these two kinds. */
  lemma ReplyIff(line: string)
    ensures IsReply(line) <==> exists rest :: line == "SUCCESS:" + rest || line == "ERROR:" + rest
  {
    if StartsWith(line, "SUCCESS:") {
      assert line == "SUCCESS:" + line[8..];
    } else if StartsWith(line, "ERROR:") {
      assert line == "ERROR:" + line[6..];
    }
  }

  /** Such a line is taken whole, from behind any number of password prompts. */
  lemma {:induction false} RepliesBehindPrompts(n: nat, line: string)
    requires IsReply(line)
    ensures StripPrompts(PROMPT, Prompts("ENTER PASSWORD:", n) + line) == line
  {
    assert line[1] != PROMPT[1];
    PromptsAreTransparent(PROMPT, n, line);
  }

  function Prompts(prompt: string, n: nat): string {
    if n == 0 then "" else prompt + Prompts(prompt, n - 1)
  }
}
