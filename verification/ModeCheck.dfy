/** What the sequencer latches over a run: the mode check and its stop request, having energized the drive, and
    the fault-reset edge. */
module ModeCheck {
  import opened Cia402
  import opened Sequencer

  /** A step at SwitchedOn that is told to enable looks at the mode. */
  predicate Looks(x: Input) { !x.i.stopping && x.cmd.enable && x.i.status.switchedOn && !x.i.status.enabled }

  /** 0x6061, 0 when it is not mapped, is the commanded mode. */
  predicate InMode(x: Input) { (if x.i.echo.Some? then x.i.echo.value else 0) == x.cmd.mode }

  predicate FirstLook(xs: seq<Input>, k: nat) {
    k < |xs| && Looks(xs[k]) && forall j :: 0 <= j < k ==> !Looks(xs[j])
  }

  /** The first look, and no other, decides: passed or failed for good. */
  lemma {:induction false} FirstLookDecides(xs: seq<Input>, k: nat)
    requires FirstLook(xs, k)
    ensures var e := Run(RESET_STATE, xs).echo; (e.checked <==> InMode(xs[k])) && (e.mismatch <==> !InMode(xs[k]))
    decreases |xs|
  {
    var pre := xs[..|xs| - 1];
    if k == |xs| - 1 {
      NothingBeforeLooking(pre);
    } else {
      FirstLookDecides(pre, k);
    }
  }

  lemma {:induction false} NothingBeforeLooking(xs: seq<Input>)
    requires forall j :: 0 <= j < |xs| ==> !Looks(xs[j])
    ensures var e := Run(RESET_STATE, xs).echo; !e.checked && !e.mismatch
  {
    if xs != [] {
      NothingBeforeLooking(xs[..|xs| - 1]);
    }
  }

  /** The last step of the run asks the Runner to stop. */
  predicate AsksToStop(xs: seq<Input>)
    requires xs != []
  {
    var x := xs[|xs| - 1];
    Step(Run(RESET_STATE, xs[..|xs| - 1]), BLANK, x.i, x.cmd).stopRequested
  }

  /** Over every run since reset: a stop is asked for exactly by the step that looks first and does not find its
      mode, and so at most once; what the look found stays latched. */
  lemma StopIsAskedOnce(xs: seq<Input>)
    requires xs != []
    ensures AsksToStop(xs) <==> FirstLook(xs, |xs| - 1) && !InMode(xs[|xs| - 1])
  {
    var pre := xs[..|xs| - 1];
    if j :| 0 <= j < |pre| && Looks(pre[j]) {
      var k := FirstOf(pre, j);
      FirstLookDecides(pre, k);
      assert !FirstLook(xs, |xs| - 1) by {
        assert Looks(xs[k]);
      }
    } else {
      NothingBeforeLooking(pre);
    }
  }

  lemma {:induction false} FirstOf(xs: seq<Input>, j: nat) returns (k: nat)
    requires j < |xs| && Looks(xs[j])
    ensures k <= j && FirstLook(xs, k)
  {
    if i: nat :| i < j && Looks(xs[i]) {
      k := FirstOf(xs, i);
    } else {
      k := j;
    }
  }

  /** The word of the last step. */
  function LastWord(xs: seq<Input>): ControlWord
    requires xs != []
  {
    var x := xs[|xs| - 1];
    Step(Run(RESET_STATE, xs[..|xs| - 1]), BLANK, x.i, x.cmd).image.cw
  }

  /** Once the look failed no word energizes the drive again, whatever it shows and is commanded. */
  lemma NeverEnergizesInWrongMode(xs: seq<Input>, k: nat)
    requires FirstLook(xs, k) && !InMode(xs[k]) && !xs[|xs| - 1].i.stopping
    ensures DriveNext(xs[|xs| - 1].i.status.state, LastWord(xs)) != OperationEnabled
  {
    var pre := xs[..|xs| - 1];
    if k < |pre| {
      FirstLookDecides(pre, k);
    } else {
      NothingBeforeLooking(pre);
    }
  }

  // --- having energized the drive ----------------------------------------------------------------

  /** Step k operated the drive. */
  predicate Operated(xs: seq<Input>, k: nat) {
    k < |xs| && !xs[k].i.stopping && Operates(Run(RESET_STATE, xs[..k + 1]).echo.mismatch, xs[k].i, xs[k].cmd)
  }

  /** The shutdown ramps the drive down, instead of letting it coast, exactly when some step since reset has
      operated it and it is neither faulted nor off. */
  lemma {:induction false} AnnouncedExactly(xs: seq<Input>)
    ensures Run(RESET_STATE, xs).announcedOp <==> exists k: nat :: Operated(xs, k)
  {
    if xs != [] {
      var pre, n := xs[..|xs| - 1], |xs| - 1;
      AnnouncedExactly(pre);
      assert xs[..n + 1] == xs;
      forall k: nat | k < n ensures Operated(xs, k) == Operated(pre, k) {
        assert xs[..k + 1] == pre[..k + 1];
      }
      StepAnnounces(Run(RESET_STATE, pre), xs[n]);
      assert Operated(xs, n) || Run(RESET_STATE, xs).announcedOp == Run(RESET_STATE, pre).announcedOp;
      if k: nat :| Operated(pre, k) {
        assert Operated(xs, k);
      } else {
        assert forall k: nat :: Operated(xs, k) ==> k == n;
      }
    }
  }

  lemma StepAnnounces(s: SeqState, x: Input)
    ensures After(s, x).announcedOp <==>
              s.announcedOp || (!x.i.stopping && Operates(After(s, x).echo.mismatch, x.i, x.cmd))
    ensures !x.i.stopping ==>
              (Operates(After(s, x).echo.mismatch, x.i, x.cmd) <==> Operates(s.echo.mismatch, x.i, x.cmd))
  {
  }

  // --- the fault-reset edge ----------------------------------------------------------------------

  /** In Fault bit 7 goes out exactly when the word before had it low, so every one is a rising edge and a drive
      that stays in Fault sees one every other step. */
  lemma ResetIsEdge(xs: seq<Input>)
    requires |xs| >= 2 && !xs[|xs| - 1].i.stopping && !xs[|xs| - 2].i.stopping
    ensures LastWord(xs).faultReset <==>
              xs[|xs| - 1].i.status.state == Fault && !LastWord(xs[..|xs| - 1]).faultReset
  {
    var pre := xs[..|xs| - 1];
    assert pre[|pre| - 1] == xs[|xs| - 2];
    StateIgnoresImage(Run(RESET_STATE, pre[..|pre| - 1]), BLANK, pre[|pre| - 1]);
  }
}
