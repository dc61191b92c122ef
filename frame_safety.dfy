/** Properties of sequences of frames rendered by `App::render`
    (src/app.rs:75-133).

    The central one is the rule the images-in-flight table exists for: a
    command buffer is never submitted again while its previous submission
    may still be executing.  Between two submissions of the same command
    buffer the log always holds a wait on the fence of the first one, or a
    wait for the whole device to go idle. */
module FrameSafety {
  import opened Vk
  import opened Scheduler

  /** Once `c` returns, every submission fenced by `fence` has finished. */
  predicate Releases(c: Call, fence: Handle)
  {
    c == WaitForFences(fence) || c == DeviceWaitIdle
  }

  /** Some call strictly between positions `i` and `j` waited for the
      submission at position `i`. */
  ghost predicate WaitedBetween(cs: seq<Call>, i: nat, j: nat)
    requires i < j <= |cs| && cs[i].QueueSubmit?
  {
    exists w :: i < w < j && Releases(cs[w], cs[i].fence)
  }

  /** No command buffer is submitted again before its previous submission
      was waited for. */
  ghost predicate NoResubmitWhilePending(cs: seq<Call>)
  {
    forall i, j ::
      (0 <= i < j < |cs| && cs[i].QueueSubmit? && cs[j].QueueSubmit? && cs[i].commandBuffer == cs[j].commandBuffer)
      ==> WaitedBetween(cs, i, j)
  }

  /** Every submission that has not been waited for yet is tracked: its
      command buffer is that of an image whose images-in-flight entry holds
      the submission's (non-null) fence. */
  ghost predicate Tracked(s: State)
  {
    forall i :: 0 <= i < |s.calls| && s.calls[i].QueueSubmit? && !WaitedBetween(s.calls, i, |s.calls|) ==>
      && s.calls[i].fence != NULL
      && exists k :: TracksAt(s, k, s.calls[i])
  }

  /** Image `k`'s command buffer is the one `submit` used, and its table
      entry holds the fence `submit` signals. */
  ghost predicate TracksAt(s: State, k: int, submit: Call)
    requires submit.QueueSubmit?
  {
    && 0 <= k < |s.imagesInFlight| && k < |s.chain.commandBuffers|
    && s.chain.commandBuffers[k] == submit.commandBuffer
    && s.imagesInFlight[k] == submit.fence
  }

  ghost predicate Safe(s: State)
  {
    NoResubmitWhilePending(s.calls) && Tracked(s)
  }

  /** A wait found in a log is still there once the log has grown. */
  lemma WaitedBetweenGrows(cs: seq<Call>, cs': seq<Call>, i: nat, j: nat, j': nat)
    requires cs <= cs' && i < j <= |cs| && j <= j' <= |cs'| && cs[i].QueueSubmit?
    requires WaitedBetween(cs, i, j)
    ensures WaitedBetween(cs', i, j')
  {
    var w :| i < w < j && Releases(cs[w], cs[i].fence);
    assert cs'[w] == cs[w];
  }

  /** ... and a wait found in a prefix of a grown log was in the old log. */
  lemma WaitedBetweenShrinks(cs: seq<Call>, cs': seq<Call>, i: nat, j: nat)
    requires cs <= cs' && i < j <= |cs| && cs[i].QueueSubmit?
    requires WaitedBetween(cs', i, j)
    ensures WaitedBetween(cs, i, j)
  {
    var w :| i < w < j && Releases(cs'[w], cs'[i].fence);
    assert cs'[w] == cs[w];
  }

  /** Old pairs of submissions keep their waits when the log grows. */
  lemma OldPairsStaySafe(cs: seq<Call>, cs': seq<Call>)
    requires cs <= cs' && NoResubmitWhilePending(cs)
    ensures forall i, j ::
      (0 <= i < j < |cs| && cs'[i].QueueSubmit? && cs'[j].QueueSubmit? && cs'[i].commandBuffer == cs'[j].commandBuffer)
      ==> WaitedBetween(cs', i, j)
  {
    forall i, j | 0 <= i < j < |cs| && cs'[i].QueueSubmit? && cs'[j].QueueSubmit? && cs'[i].commandBuffer == cs'[j].commandBuffer
      ensures WaitedBetween(cs', i, j)
    {
      assert cs[i] == cs'[i] && cs[j] == cs'[j];
      WaitedBetweenGrows(cs, cs', i, j, j);
    }
  }

  /** Appending calls that submit nothing, with the table and the command
      buffers untouched, keeps the log safe. */
  lemma {:induction false} QuietCallsKeepSafe(s: State, s': State)
    requires Safe(s)
    requires s.calls <= s'.calls
    requires NoQueueWork(s'.calls, |s.calls|)
    requires s'.imagesInFlight == s.imagesInFlight && s'.chain.commandBuffers == s.chain.commandBuffers
    ensures Safe(s')
  {
    OldPairsStaySafe(s.calls, s'.calls);
    forall i | 0 <= i < |s'.calls| && s'.calls[i].QueueSubmit? && !WaitedBetween(s'.calls, i, |s'.calls|)
      ensures s'.calls[i].fence != NULL
      ensures exists k :: TracksAt(s', k, s'.calls[i])
    {
      assert i < |s.calls| && s.calls[i] == s'.calls[i];
      if WaitedBetween(s.calls, i, |s.calls|) {
        WaitedBetweenGrows(s.calls, s'.calls, i, |s.calls|, |s'.calls|);
      }
      var k :| TracksAt(s, k, s.calls[i]);
      assert TracksAt(s', k, s'.calls[i]);
    }
  }

  /** Appending calls that include a device-idle wait and submit nothing
      leaves no submission pending, whatever the table then holds. */
  lemma {:induction false} IdleWaitKeepsSafe(s: State, s': State, p: nat)
    requires NoResubmitWhilePending(s.calls)
    requires s.calls <= s'.calls && |s.calls| <= p < |s'.calls| && s'.calls[p] == DeviceWaitIdle
    requires NoQueueWork(s'.calls, |s.calls|)
    ensures Safe(s')
  {
    OldPairsStaySafe(s.calls, s'.calls);
    forall i | 0 <= i < |s'.calls| && s'.calls[i].QueueSubmit?
      ensures WaitedBetween(s'.calls, i, |s'.calls|)
    {
      assert Releases(s'.calls[p], s'.calls[i].fence);
    }
  }

  /** Steps 3 to 5 of a frame keep the log safe: the only new submission
      either finds its command buffer's previous submission waited for
      already, or finds that submission's fence in the table entry of the
      acquired image, which is waited on before the submit. */
  lemma {:induction false} SubmitFrameKeepsSafe(s: State, img: nat)
    requires Valid(s) && img < |s.chain.images| && Safe(s)
    ensures Safe(SubmitFrame(s, img))
  {
    SubmitFrameSubmitsOnce(s, img);
    SubmitFrameKeepsPairsSafe(s, img);
    SubmitFrameKeepsTracked(s, img);
  }

  /** The one submission a frame makes, and where it sits in the log. */
  lemma SubmitFrameSubmitsOnce(s: State, img: nat)
    requires Valid(s) && img < |s.chain.images|
    ensures var r := SubmitFrame(s, img);
      var q := |s.calls| + (if s.imagesInFlight[img] == NULL then 0 else 1) + 1;
      && q < |r.calls| && r.calls[q].QueueSubmit?
      && r.calls[q].commandBuffer == s.chain.commandBuffers[img]
      && r.calls[q].fence == s.inFlightFences[s.frame] != NULL
      && forall x :: |s.calls| <= x < |r.calls| && r.calls[x].QueueSubmit? ==> x == q
  {
  }

  /** The new submission has a wait before it for every earlier
      submission of the same command buffer: either one already in the
      log, or the wait on the fence the acquired image's table entry held. */
  lemma {:induction false} SubmitFrameKeepsPairsSafe(s: State, img: nat)
    requires Valid(s) && img < |s.chain.images| && Safe(s)
    ensures NoResubmitWhilePending(SubmitFrame(s, img).calls)
  {
    var r := SubmitFrame(s, img);
    var n := |s.calls|;
    var held := s.imagesInFlight[img];
    var fence := s.inFlightFences[s.frame];
    var q := n + (if held == NULL then 0 else 1) + 1;
    SubmitFrameSubmitsOnce(s, img);
    // the new submission is safe against every earlier one
    OldPairsStaySafe(s.calls, r.calls);
    forall i, j | 0 <= i < j < |r.calls| && r.calls[i].QueueSubmit? && r.calls[j].QueueSubmit? && r.calls[i].commandBuffer == r.calls[j].commandBuffer
      ensures WaitedBetween(r.calls, i, j)
    {
      if j >= n {
        assert j == q && i < n && s.calls[i] == r.calls[i];
        if WaitedBetween(s.calls, i, n) {
          WaitedBetweenGrows(s.calls, r.calls, i, n, j);
        } else {
          var k :| TracksAt(s, k, s.calls[i]);
          assert k == img;
          assert r.calls[n] == WaitForFences(held) && Releases(r.calls[n], r.calls[i].fence);
        }
      }
    }
  }

  /** The new submission is tracked by the acquired image's entry, and an
      older pending submission cannot have been tracked by that entry, since
      its fence was just waited for; so it keeps its own entry. */
  lemma {:induction false} SubmitFrameKeepsTracked(s: State, img: nat)
    requires Valid(s) && img < |s.chain.images| && Safe(s)
    ensures Tracked(SubmitFrame(s, img))
  {
    var r := SubmitFrame(s, img);
    var n := |s.calls|;
    var held := s.imagesInFlight[img];
    var fence := s.inFlightFences[s.frame];
    var q := n + (if held == NULL then 0 else 1) + 1;
    SubmitFrameSubmitsOnce(s, img);
    forall i | 0 <= i < |r.calls| && r.calls[i].QueueSubmit? && !WaitedBetween(r.calls, i, |r.calls|)
      ensures r.calls[i].fence != NULL
      ensures exists k :: TracksAt(r, k, r.calls[i])
    {
      if i >= n {
        assert i == q && TracksAt(r, img, r.calls[i]);
      } else {
        assert s.calls[i] == r.calls[i];
        if WaitedBetween(s.calls, i, n) {
          WaitedBetweenGrows(s.calls, r.calls, i, n, |r.calls|);
        }
        var k :| TracksAt(s, k, s.calls[i]);
        if k == img {
          assert false;
        }
        assert TracksAt(r, k, r.calls[i]);
      }
    }
  }

  /** A recreation leaves no submission pending. */
  lemma RecreateKeepsSafe(s: State, rebuild: Rebuild)
    requires Valid(s) && (rebuild.Rebuilt? ==> ChainValid(rebuild.chain))
    requires NoResubmitWhilePending(s.calls)
    ensures Safe(Recreate(s, rebuild).state)
  {
    RecreateOnlyWaitsAndReleases(s, rebuild);
    var r := Recreate(s, rebuild).state;
    assert r.calls[|s.calls|] == RecreateCalls(s)[0] == DeviceWaitIdle;
    IdleWaitKeepsSafe(s, r, |s.calls|);
  }

  /** Safety does not depend on the slot or the resize flag. */
  lemma SafeIgnoresSlot(s: State, frame: nat, resized: bool)
    requires Safe(s)
    ensures Safe(s.(frame := frame, resized := resized))
  {
    var s' := s.(frame := frame, resized := resized);
    forall i | 0 <= i < |s'.calls| && s'.calls[i].QueueSubmit? && !WaitedBetween(s'.calls, i, |s'.calls|)
      ensures exists k :: TracksAt(s', k, s'.calls[i])
    {
      var k :| TracksAt(s, k, s.calls[i]);
      assert TracksAt(s', k, s'.calls[i]);
    }
  }

  /** Steps 6 and 7 keep the log safe. */
  lemma FinishFrameKeepsSafe(s: State, present: Present, rebuild: Rebuild)
    requires Valid(s) && (rebuild.Rebuilt? ==> ChainValid(rebuild.chain)) && Safe(s)
    ensures Safe(FinishFrame(s, present, rebuild).state)
  {
    var r := FinishFrame(s, present, rebuild).state;
    if Rebuilds(s, present) {
      RecreateKeepsSafe(s.(resized := false), rebuild);
      SafeIgnoresSlot(Recreate(s.(resized := false), rebuild).state, r.frame, r.resized);
    } else {
      SafeIgnoresSlot(s, r.frame, r.resized);
    }
  }

  /** One call of `render` keeps the log safe. */
  lemma {:induction false} RenderKeepsSafe(s: State, input: FrameInput)
    requires Valid(s) && Admissible(s, input) && Safe(s)
    ensures Safe(Render(s, input).state)
  {
    RenderCases(s, input);
    var acquired := BeginFrame(s);
    QuietCallsKeepSafe(s, acquired);
    match input.acquire
    case AcquireOutOfDate =>
      RecreateKeepsSafe(acquired, input.rebuild);
    case AcquireFailed =>
    case Acquired(img) =>
      SubmitFrameKeepsSafe(acquired, img);
      FinishFrameKeepsSafe(SubmitFrame(acquired, img), input.present, input.rebuild);
  }

  /** The driver answers every frame of a run admissibly. */
  ghost predicate AdmissibleRun(s: State, inputs: seq<FrameInput>)
    requires Valid(s)
    decreases |inputs|
  {
    inputs == [] || (Admissible(s, inputs[0]) && AdmissibleRun(Render(s, inputs[0]).state, inputs[1..]))
  }

  /** The state after rendering one frame per input, in order. */
  function Run(s: State, inputs: seq<FrameInput>): (r: State)
    requires Valid(s) && AdmissibleRun(s, inputs)
    ensures Valid(r) && s.calls <= r.calls
    decreases |inputs|
  {
    if inputs == [] then s else Run(Render(s, inputs[0]).state, inputs[1..])
  }

  /** Safety holds after any run, including runs that recreate the
      swapchain or hit errors. */
  lemma {:induction false} RunKeepsSafe(s: State, inputs: seq<FrameInput>)
    requires Valid(s) && AdmissibleRun(s, inputs) && Safe(s)
    ensures Safe(Run(s, inputs))
    decreases |inputs|
  {
    if inputs != [] {
      RenderKeepsSafe(s, inputs[0]);
      RunKeepsSafe(Render(s, inputs[0]).state, inputs[1..]);
    }
  }

  /** From a start with an empty log, no run ever resubmits a command
      buffer whose previous submission has not been waited for. */
  lemma NeverResubmitsPending(s: State, inputs: seq<FrameInput>)
    requires Valid(s) && s.calls == [] && AdmissibleRun(s, inputs)
    ensures NoResubmitWhilePending(Run(s, inputs).calls)
  {
    RunKeepsSafe(s, inputs);
  }
}
