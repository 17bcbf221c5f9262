/** The `DirectiveSequencer` front door: it accepts directives into a receiving queue while
    enabled and not shutting down, and a single receiving loop takes them off the front, one
    at a time, and forwards them downstream; a directive nobody handles is reported to the
    exception sender as an unsupported operation.

    Threads are gone: each section the source runs under `m_mutex` is one atomic transition
    on an immutable `Sequencer` record. The directive processor and the directive router
    are not part of this model; what they answer is a parameter (`processorHandles`,
    `routerHandles`) and what is asked of them is recorded in the `calls` log. */
module DirectiveSequencer {
  import opened Optional
  import opened AvsCommon

  /** A call the sequencer makes on the directive processor or the directive router. */
  datatype DownstreamCall =
    | ProcessorSetDialogRequestId(dialogRequestId: string)
    | ProcessorEnable
    | ProcessorDisable
    | ProcessorOnDirective(directive: Directive)
    | RouterHandleDirectiveImmediately(directive: Directive)
    | ProcessorShutdown
    | RouterShutdown

  /** One `sendExceptionEncountered` call: the unparsed directive, the kind, the message. */
  datatype ExceptionReport = ExceptionReport(unparsedDirective: string, errorType: ExceptionErrorType, message: string)

  /** The message sent with every unsupported-operation report. */
  const UnsupportedOperationMessage: string := "Unsupported operation"

  /** The sequencer's state. `accepted` is not a field of the source: it records, in order,
      every directive `onDirective` accepted, so that the intake order can be stated. */
  datatype Sequencer = Sequencer(
    isEnabled: bool,
    isShuttingDown: bool,
    receivingQueue: seq<Directive>,
    calls: seq<DownstreamCall>,
    exceptions: seq<ExceptionReport>,
    hasExceptionSender: bool,
    accepted: seq<Directive>)

  /** The constructor: enabled, not shutting down, nothing queued or called yet. */
  function NewSequencer(): Sequencer {
    Sequencer(true, false, [], [], [], true, [])
  }

  /** `create`: no sequencer without an exception sender. */
  function Create(hasExceptionSender: bool): (s: Option<Sequencer>)
    ensures s.Some? <==> hasExceptionSender
    ensures s.Some? ==> s.value.isEnabled && !s.value.isShuttingDown && s.value.receivingQueue == []
    ensures s.Some? ==> s.value.calls == [] && s.value.exceptions == []
  {
    if !hasExceptionSender then None else Some(NewSequencer())
  }

  /** `createDirectiveSequencerInterface`: no sequencer without an exception sender or
      without a shutdown notifier to register with. */
  function CreateDirectiveSequencerInterface(hasExceptionSender: bool, hasShutdownNotifier: bool): (s: Option<Sequencer>)
    ensures s.Some? <==> hasExceptionSender && hasShutdownNotifier
    ensures s.Some? ==> s.value.isEnabled && !s.value.isShuttingDown && s.value.receivingQueue == []
    ensures s.Some? ==> s.value.calls == [] && s.value.exceptions == []
  {
    if !hasExceptionSender || !hasShutdownNotifier then None else Some(NewSequencer())
  }

  /** The answer of `onDirective` and the state after it. */
  datatype Intake = Intake(sequencer: Sequencer, accepted: bool)

  /** `onDirective`: a null directive, or one arriving while shutting down or disabled, is
      refused and changes nothing; any other is appended to the back of the queue. */
  function OnDirective(s: Sequencer, directive: Option<Directive>): (r: Intake)
    ensures r.accepted <==> directive.Some? && !s.isShuttingDown && s.isEnabled
    ensures !r.accepted ==> r.sequencer == s
    ensures r.accepted ==>
              && r.sequencer.receivingQueue == s.receivingQueue + [directive.value]
              && r.sequencer.accepted == s.accepted + [directive.value]
              && r.sequencer.(receivingQueue := s.receivingQueue, accepted := s.accepted) == s
  {
    match directive
    case None => Intake(s, false)
    case Some(d) =>
      if s.isShuttingDown || !s.isEnabled then Intake(s, false)
      else Intake(s.(receivingQueue := s.receivingQueue + [d], accepted := s.accepted + [d]), true)
  }

  /** `disable`: stop accepting, clear the processor's dialog request id, disable the
      processor. Directives already queued stay queued. */
  function Disable(s: Sequencer): (r: Sequencer)
    ensures !r.isEnabled
    ensures r.calls == s.calls + [ProcessorSetDialogRequestId(""), ProcessorDisable]
    ensures r.(isEnabled := s.isEnabled, calls := s.calls) == s
  {
    s.(isEnabled := false, calls := s.calls + [ProcessorSetDialogRequestId(""), ProcessorDisable])
  }

  /** `enable`: accept again and re-enable the processor. */
  function Enable(s: Sequencer): (r: Sequencer)
    ensures r.isEnabled
    ensures r.calls == s.calls + [ProcessorEnable]
    ensures r.(isEnabled := s.isEnabled, calls := s.calls) == s
  {
    s.(isEnabled := true, calls := s.calls + [ProcessorEnable])
  }

  /** `setDialogRequestId`: handed to the processor. */
  function SetDialogRequestId(s: Sequencer, dialogRequestId: string): (r: Sequencer)
    ensures r.calls == s.calls + [ProcessorSetDialogRequestId(dialogRequestId)]
    ensures r.(calls := s.calls) == s
  {
    s.(calls := s.calls + [ProcessorSetDialogRequestId(dialogRequestId)])
  }

  /** `doShutdown`: raise the flag and wake the loop, which exits at once without draining
      the queue; then shut down the processor and the router and drop the exception sender. */
  function Shutdown(s: Sequencer): (r: Sequencer)
    ensures r.isShuttingDown && !r.hasExceptionSender
    ensures r.receivingQueue == s.receivingQueue && r.exceptions == s.exceptions
    ensures r.calls == s.calls + [ProcessorShutdown, RouterShutdown]
    ensures r.(isShuttingDown := s.isShuttingDown, hasExceptionSender := s.hasExceptionSender, calls := s.calls) == s
  {
    s.(isShuttingDown := true, hasExceptionSender := false,
       calls := s.calls + [ProcessorShutdown, RouterShutdown])
  }

  /** Whether a directive goes to the router directly: only in a build with
      `DIALOG_REQUEST_ID_IN_ALL_RESPONSE_DIRECTIVES`, and only with an empty dialog request id. */
  predicate GoesToRouter(d: Directive, bypassForEmptyDialogRequestId: bool) {
    bypassForEmptyDialogRequestId && d.dialogRequestId == ""
  }

  /** The downstream call that forwards `d`. */
  function ForwardCall(d: Directive, bypassForEmptyDialogRequestId: bool): DownstreamCall {
    if GoesToRouter(d, bypassForEmptyDialogRequestId) then RouterHandleDirectiveImmediately(d)
    else ProcessorOnDirective(d)
  }

  /** Whether the component a call went to handled it. */
  predicate HandledBy(c: DownstreamCall, processorHandles: Directive -> bool, routerHandles: Directive -> bool) {
    match c
    case ProcessorOnDirective(d) => processorHandles(d)
    case RouterHandleDirectiveImmediately(d) => routerHandles(d)
    case _ => true
  }

  /** The report for a directive nobody handled. */
  function Unsupported(d: Directive): ExceptionReport {
    ExceptionReport(d.unparsed, UnsupportedOperation, UnsupportedOperationMessage)
  }

  /** `receiveDirectiveLocked`: on an empty queue nothing happens; otherwise exactly the
      front directive is removed and forwarded (to the processor in the default build), and
      it is reported once as an unsupported operation if the receiver did not handle it. */
  function ReceiveDirectiveLocked(s: Sequencer, processorHandles: Directive -> bool, routerHandles: Directive -> bool,
                                  bypassForEmptyDialogRequestId: bool := false): (r: Sequencer)
    ensures |s.receivingQueue| == 0 ==> r == s
    ensures |s.receivingQueue| > 0 ==>
              var d := s.receivingQueue[0];
              && r.receivingQueue == s.receivingQueue[1..]
              && r.calls == s.calls + [ForwardCall(d, bypassForEmptyDialogRequestId)]
              && (!bypassForEmptyDialogRequestId ==> r.calls[|r.calls| - 1] == ProcessorOnDirective(d))
              && (HandledBy(ForwardCall(d, bypassForEmptyDialogRequestId), processorHandles, routerHandles) ==>
                    r.exceptions == s.exceptions)
              && (!HandledBy(ForwardCall(d, bypassForEmptyDialogRequestId), processorHandles, routerHandles) ==>
                    r.exceptions == s.exceptions + [ExceptionReport(d.unparsed, UnsupportedOperation, "Unsupported operation")])
              && r.(receivingQueue := s.receivingQueue, calls := s.calls, exceptions := s.exceptions) == s
  {
    if |s.receivingQueue| == 0 then s
    else
      var d := s.receivingQueue[0];
      var handled := if GoesToRouter(d, bypassForEmptyDialogRequestId) then routerHandles(d) else processorHandles(d);
      s.(receivingQueue := s.receivingQueue[1..],
         calls := s.calls + [ForwardCall(d, bypassForEmptyDialogRequestId)],
         exceptions := s.exceptions + (if handled then [] else [Unsupported(d)]))
  }

  /** One wake of `receivingLoop`: once shutting down the loop has left and nothing moves;
      while the queue is empty it keeps waiting; otherwise it receives one directive. */
  function ReceivingLoopStep(s: Sequencer, processorHandles: Directive -> bool, routerHandles: Directive -> bool,
                             bypassForEmptyDialogRequestId: bool := false): (r: Sequencer)
    ensures s.isShuttingDown || |s.receivingQueue| == 0 ==> r == s
    ensures !s.isShuttingDown && |s.receivingQueue| > 0 ==>
              var d := s.receivingQueue[0];
              && r.receivingQueue == s.receivingQueue[1..]
              && r.calls == s.calls + [ForwardCall(d, bypassForEmptyDialogRequestId)]
              && r.exceptions == s.exceptions +
                   (if HandledBy(ForwardCall(d, bypassForEmptyDialogRequestId), processorHandles, routerHandles)
                    then [] else [Unsupported(d)])
              && r.(receivingQueue := s.receivingQueue, calls := s.calls, exceptions := s.exceptions) == s
  {
    if s.isShuttingDown then s
    else ReceiveDirectiveLocked(s, processorHandles, routerHandles, bypassForEmptyDialogRequestId)
  }

  // ---------------------------------------------------------------------------------------
  // Runs of the sequencer

  /** One public call, or one wake of the receiving loop. */
  datatype Op =
    | OnDirectiveOp(directive: Option<Directive>)
    | EnableOp
    | DisableOp
    | SetDialogRequestIdOp(dialogRequestId: string)
    | LoopStepOp
    | ShutdownOp

  function Step(s: Sequencer, op: Op, processorHandles: Directive -> bool, routerHandles: Directive -> bool,
                bypassForEmptyDialogRequestId: bool): Sequencer
  {
    match op
    case OnDirectiveOp(d) => OnDirective(s, d).sequencer
    case EnableOp => Enable(s)
    case DisableOp => Disable(s)
    case SetDialogRequestIdOp(id) => SetDialogRequestId(s, id)
    case LoopStepOp => ReceivingLoopStep(s, processorHandles, routerHandles, bypassForEmptyDialogRequestId)
    case ShutdownOp => Shutdown(s)
  }

  /** Any interleaving of calls and loop wakes, in order. */
  function Run(s: Sequencer, ops: seq<Op>, processorHandles: Directive -> bool, routerHandles: Directive -> bool,
               bypassForEmptyDialogRequestId: bool): Sequencer
    decreases |ops|
  {
    if |ops| == 0 then s
    else Run(Step(s, ops[0], processorHandles, routerHandles, bypassForEmptyDialogRequestId), ops[1..],
             processorHandles, routerHandles, bypassForEmptyDialogRequestId)
  }

  /** The directives forwarded downstream, in the order they were forwarded. */
  function Forwarded(calls: seq<DownstreamCall>): seq<Directive>
    decreases |calls|
  {
    if |calls| == 0 then []
    else
      var last := calls[|calls| - 1];
      Forwarded(calls[..|calls| - 1]) +
        (if last.ProcessorOnDirective? || last.RouterHandleDirectiveImmediately? then [last.directive] else [])
  }

  /** The unsupported-operation reports the log of calls implies: one per forwarded
      directive its receiver did not handle, in forwarding order. */
  function ExpectedExceptions(calls: seq<DownstreamCall>, processorHandles: Directive -> bool,
                              routerHandles: Directive -> bool): seq<ExceptionReport>
    decreases |calls|
  {
    if |calls| == 0 then []
    else
      var last := calls[|calls| - 1];
      ExpectedExceptions(calls[..|calls| - 1], processorHandles, routerHandles) +
        (if (last.ProcessorOnDirective? || last.RouterHandleDirectiveImmediately?)
            && !HandledBy(last, processorHandles, routerHandles)
         then [Unsupported(last.directive)] else [])
  }

  /** What every reachable sequencer satisfies: the forwarded directives followed by the
      queue are exactly the accepted directives in acceptance order (nothing dropped,
      duplicated or reordered), and the exception reports are exactly one per forwarded
      directive that was not handled. */
  ghost predicate Inv(s: Sequencer, processorHandles: Directive -> bool, routerHandles: Directive -> bool) {
    && Forwarded(s.calls) + s.receivingQueue == s.accepted
    && s.exceptions == ExpectedExceptions(s.calls, processorHandles, routerHandles)
  }

  lemma NewSequencerInv(processorHandles: Directive -> bool, routerHandles: Directive -> bool)
    ensures Inv(NewSequencer(), processorHandles, routerHandles)
  {
  }

  /** Appending calls that forward nothing changes neither the forwarded directives nor the
      expected reports. */
  lemma {:induction false} AppendNonForwarding(calls: seq<DownstreamCall>, more: seq<DownstreamCall>,
                                               processorHandles: Directive -> bool, routerHandles: Directive -> bool)
    requires forall i | 0 <= i < |more| :: !more[i].ProcessorOnDirective? && !more[i].RouterHandleDirectiveImmediately?
    ensures Forwarded(calls + more) == Forwarded(calls)
    ensures ExpectedExceptions(calls + more, processorHandles, routerHandles) ==
            ExpectedExceptions(calls, processorHandles, routerHandles)
    decreases |more|
  {
    if |more| > 0 {
      var front := more[..|more| - 1];
      var all := calls + more;
      assert all[..|all| - 1] == calls + front;
      var last := more[|more| - 1];
      assert all[|all| - 1] == last;
      AppendNonForwarding(calls, front, processorHandles, routerHandles);
    } else {
      assert calls + more == calls;
    }
  }

  /** Appending one forwarding call adds its directive, and its report if unhandled. */
  lemma AppendForwarding(calls: seq<DownstreamCall>, d: Directive, bypass: bool,
                         processorHandles: Directive -> bool, routerHandles: Directive -> bool)
    ensures Forwarded(calls + [ForwardCall(d, bypass)]) == Forwarded(calls) + [d]
    ensures ExpectedExceptions(calls + [ForwardCall(d, bypass)], processorHandles, routerHandles) ==
            ExpectedExceptions(calls, processorHandles, routerHandles) +
              (if HandledBy(ForwardCall(d, bypass), processorHandles, routerHandles) then [] else [Unsupported(d)])
  {
    assert (calls + [ForwardCall(d, bypass)])[..|calls|] == calls;
  }

  /** The calls that only talk to the processor or the router, or change flags: they log
      no forwarding call, so the directive flow and the reports are untouched. */
  predicate ForwardsNothing(op: Op) {
    op.EnableOp? || op.DisableOp? || op.SetDialogRequestIdOp? || op.ShutdownOp?
  }

  lemma ControlOpForwardsNothing(s: Sequencer, op: Op, processorHandles: Directive -> bool,
                                 routerHandles: Directive -> bool, bypass: bool)
    requires ForwardsNothing(op)
    ensures var r := Step(s, op, processorHandles, routerHandles, bypass);
      && r.receivingQueue == s.receivingQueue
      && r.accepted == s.accepted
      && r.exceptions == s.exceptions
      && (s.isShuttingDown ==> r.isShuttingDown)
      && Forwarded(r.calls) == Forwarded(s.calls)
      && ExpectedExceptions(r.calls, processorHandles, routerHandles) ==
         ExpectedExceptions(s.calls, processorHandles, routerHandles)
  {
    var more := match op
      case EnableOp => [ProcessorEnable]
      case DisableOp => [ProcessorSetDialogRequestId(""), ProcessorDisable]
      case SetDialogRequestIdOp(id) => [ProcessorSetDialogRequestId(id)]
      case _ => [ProcessorShutdown, RouterShutdown];
    assert Step(s, op, processorHandles, routerHandles, bypass).calls == s.calls + more;
    AppendNonForwarding(s.calls, more, processorHandles, routerHandles);
  }

  /** A loop wake that receives keeps the invariant. */
  lemma ReceiveKeepsInv(s: Sequencer, processorHandles: Directive -> bool, routerHandles: Directive -> bool,
                        bypass: bool)
    requires Inv(s, processorHandles, routerHandles)
    ensures Inv(ReceivingLoopStep(s, processorHandles, routerHandles, bypass), processorHandles, routerHandles)
  {
    if !s.isShuttingDown && |s.receivingQueue| > 0 {
      var d := s.receivingQueue[0];
      var r := ReceivingLoopStep(s, processorHandles, routerHandles, bypass);
      AppendForwarding(s.calls, d, bypass, processorHandles, routerHandles);
      calc {
        Forwarded(r.calls) + r.receivingQueue;
        Forwarded(s.calls) + [d] + s.receivingQueue[1..];
        { assert [d] + s.receivingQueue[1..] == s.receivingQueue; }
        Forwarded(s.calls) + s.receivingQueue;
      }
    }
  }

  /** Every call and every loop wake keeps the invariant. */
  lemma StepKeepsInv(s: Sequencer, op: Op, processorHandles: Directive -> bool, routerHandles: Directive -> bool,
                     bypass: bool)
    requires Inv(s, processorHandles, routerHandles)
    ensures Inv(Step(s, op, processorHandles, routerHandles, bypass), processorHandles, routerHandles)
  {
    if ForwardsNothing(op) {
      ControlOpForwardsNothing(s, op, processorHandles, routerHandles, bypass);
    } else if op.LoopStepOp? {
      ReceiveKeepsInv(s, processorHandles, routerHandles, bypass);
    } else {
      var d := op.directive;
      if OnDirective(s, d).accepted {
        assert Forwarded(s.calls) + (s.receivingQueue + [d.value]) == s.accepted + [d.value];
      }
    }
  }

  /** Every run keeps the invariant. */
  lemma {:induction false} RunKeepsInv(s: Sequencer, ops: seq<Op>, processorHandles: Directive -> bool,
                                       routerHandles: Directive -> bool, bypass: bool)
    requires Inv(s, processorHandles, routerHandles)
    ensures Inv(Run(s, ops, processorHandles, routerHandles, bypass), processorHandles, routerHandles)
    decreases |ops|
  {
    if |ops| > 0 {
      StepKeepsInv(s, ops[0], processorHandles, routerHandles, bypass);
      RunKeepsInv(Step(s, ops[0], processorHandles, routerHandles, bypass), ops[1..],
                  processorHandles, routerHandles, bypass);
    }
  }

  /** FIFO intake, from construction: whatever the interleaving, the directives forwarded so
      far are a prefix of the accepted ones in acceptance order, the rest are still queued,
      and each unhandled one has been reported exactly once. */
  lemma IntakeIsFifo(ops: seq<Op>, processorHandles: Directive -> bool, routerHandles: Directive -> bool, bypass: bool)
    ensures var s := Run(NewSequencer(), ops, processorHandles, routerHandles, bypass);
      && Forwarded(s.calls) + s.receivingQueue == s.accepted
      && s.exceptions == ExpectedExceptions(s.calls, processorHandles, routerHandles)
  {
    NewSequencerInv(processorHandles, routerHandles);
    RunKeepsInv(NewSequencer(), ops, processorHandles, routerHandles, bypass);
  }

  /** Shutting down is for good: afterwards every call is refused, the loop forwards
      nothing, no exception is reported, and the directives still queued stay queued. */
  lemma {:induction false} ShutdownIsSticky(s: Sequencer, ops: seq<Op>, processorHandles: Directive -> bool,
                                            routerHandles: Directive -> bool, bypass: bool)
    requires s.isShuttingDown
    ensures var r := Run(s, ops, processorHandles, routerHandles, bypass);
      && r.isShuttingDown
      && r.receivingQueue == s.receivingQueue
      && r.accepted == s.accepted
      && r.exceptions == s.exceptions
      && Forwarded(r.calls) == Forwarded(s.calls)
    decreases |ops|
  {
    if |ops| > 0 {
      var s' := Step(s, ops[0], processorHandles, routerHandles, bypass);
      if ForwardsNothing(ops[0]) {
        ControlOpForwardsNothing(s, ops[0], processorHandles, routerHandles, bypass);
      }
      ShutdownIsSticky(s', ops[1..], processorHandles, routerHandles, bypass);
    }
  }

  /** `n` loop wakes. */
  function LoopSteps(n: nat): (ops: seq<Op>)
    ensures |ops| == n && forall i | 0 <= i < n :: ops[i] == LoopStepOp
  {
    seq(n, i => LoopStepOp)
  }

  /** With no other call in between, `n` wakes of the loop forward exactly the first `n`
      queued directives, front first, and leave the rest queued. */
  lemma {:induction false} DrainIsInOrder(s: Sequencer, n: nat, processorHandles: Directive -> bool,
                                          routerHandles: Directive -> bool, bypass: bool)
    requires !s.isShuttingDown && n <= |s.receivingQueue|
    ensures var r := Run(s, LoopSteps(n), processorHandles, routerHandles, bypass);
      && Forwarded(r.calls) == Forwarded(s.calls) + s.receivingQueue[..n]
      && r.receivingQueue == s.receivingQueue[n..]
    decreases n
  {
    if n > 0 {
      var d := s.receivingQueue[0];
      var s' := ReceivingLoopStep(s, processorHandles, routerHandles, bypass);
      assert Step(s, LoopStepOp, processorHandles, routerHandles, bypass) == s';
      assert LoopSteps(n)[0] == LoopStepOp && LoopSteps(n)[1..] == LoopSteps(n - 1);
      assert Run(s, LoopSteps(n), processorHandles, routerHandles, bypass)
          == Run(s', LoopSteps(n - 1), processorHandles, routerHandles, bypass);
      AppendForwarding(s.calls, d, bypass, processorHandles, routerHandles);
      assert Forwarded(s'.calls) == Forwarded(s.calls) + [d];
      DrainIsInOrder(s', n - 1, processorHandles, routerHandles, bypass);
      assert s.receivingQueue[..n] == [d] + s'.receivingQueue[..n - 1];
      assert s'.receivingQueue[n - 1..] == s.receivingQueue[n..];
    }
  }

  /** In the default build every directive goes to the processor, whatever its dialog
      request id; only the alternate build sends those with an empty id to the router. */
  lemma DefaultBuildUsesProcessor(d: Directive)
    ensures ForwardCall(d, false) == ProcessorOnDirective(d)
    ensures ForwardCall(d, true) == if d.dialogRequestId == "" then RouterHandleDirectiveImmediately(d)
                                    else ProcessorOnDirective(d)
  {
  }
}
