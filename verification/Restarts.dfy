/** The scrobbler and its journal over a restart: which songs are submitted once, twice, or not
    at all. */
module Restarts {
  import opened Text
  import opened Records
  import opened Submission
  import opened SubmissionProofs
  import opened Journal
  import opened JournalProofs
  import JournalSessions

  lemma CancelEnds(front: seq<Record>, a: seq<Record>, b: seq<Record>, back: seq<Record>)
    ensures front + a + back == front + b + back <==> a == b
  {
    if front + a + back == front + b + back {
      assert |a| == |b|;
      assert (front + a + back)[|front|..|front| + |a|] == a;
      assert (front + b + back)[|front|..|front| + |b|] == b;
    }
  }

  lemma SameOffered(journal: seq<Record>, pushed: seq<Record>, later: seq<Record>, delivered: seq<Record>,
                    queue: seq<Record>, stored: seq<Record>, rest: seq<Record>)
    requires journal + pushed == delivered + queue
    requires stored + later == rest
    ensures journal + pushed + later == delivered + rest <==> stored == queue
  {
    assert delivered + (stored + later) == delivered + stored + later;
    CancelEnds(delivered, queue, stored, later);
  }

  lemma OfferedSince(journal: seq<Record>, pushed: seq<Record>, later: seq<Record>,
                     delivered: seq<Record>, queue: seq<Record>)
    requires journal + pushed == delivered + queue
    ensures journal + (pushed + later) == delivered + (queue + later)
  {
    assert journal + (pushed + later) == journal + pushed + later;
    assert delivered + (queue + later) == delivered + queue + later;
  }

  /** When the file that a save leaves behind holds the saved queue itself. */
  lemma SaveKeepsQueue(f: Files, path: string, queue: seq<Record>, iso: Calendar)
    requires forall r :: r in queue ==> InInt(r.length) && Defined(r)
    ensures f.Save(path, queue, true).Stored(path, iso) == queue <==>
            && !(queue == [] && f.fileEmpty && f.Stored(path, iso) != [])
            && forall r :: r in queue ==> TidyRecord(r, iso) && FitsRecord(r)
  {
    hide ReadJournal, JournalText, TidyRecord, FitsRecord, Defined;
    JournalSessions.SavedStored(f, path, queue, true, path, iso);
    JournalRoundTrip(queue, iso);
  }

  /** A run, a save of its queue, and a run from what the file then holds: together the two
      submit every song exactly once, in order, if and only if every queued record is tidy and
      fits and the save was not skipped over records that are still in the file. */
  lemma RestartConservesExactly(journal: seq<Record>, run: seq<Moment>, f: Files, path: string,
                                later: seq<Moment>, iso: Calendar)
    requires !Run(Start(journal), run).aborted
    requires forall r :: r in Run(Start(journal), run).queue ==> InInt(r.length) && Defined(r)
    requires var stored := f.Save(path, Run(Start(journal), run).queue, true).Stored(path, iso);
             !Run(Start(stored), later).aborted
    ensures var s := Run(Start(journal), run);
            var t := Run(Start(f.Save(path, s.queue, true).Stored(path, iso)), later);
            journal + PushedRecords(run) + PushedRecords(later)
            == Delivered(s.wire) + (Delivered(t.wire) + t.queue)
            <==>
            && !(s.queue == [] && f.fileEmpty && f.Stored(path, iso) != [])
            && forall r :: r in s.queue ==> TidyRecord(r, iso) && FitsRecord(r)
  {
    hide *;
    var s := Run(Start(journal), run);
    var stored := f.Save(path, s.queue, true).Stored(path, iso);
    var t := Run(Start(stored), later);
    FifoConservation(journal, run);
    FifoConservation(stored, later);
    SaveKeepsQueue(f, path, s.queue, iso);
    SameOffered(journal, PushedRecords(run), PushedRecords(later), Delivered(s.wire), s.queue, stored,
                Delivered(t.wire) + t.queue);
  }

  // ------------------------------------------------------------------ after a crash

  lemma {:induction false} RunGrows(journal: seq<Record>, run: seq<Moment>, more: seq<Moment>)
    requires !Run(Start(journal), run + more).aborted
    ensures !Run(Start(journal), run).aborted
    ensures Run(Start(journal), run).wire <= Run(Start(journal), run + more).wire
    decreases |more|
  {
    hide Step, Start, Inv;
    if more == [] {
      assert run + more == run;
    } else {
      var n := |more| - 1;
      assert (run + more)[..|run + more| - 1] == run + more[..n];
      var s := Run(Start(journal), run + more[..n]);
      RunGrows(journal, run, more[..n]);
      RunInv(journal, run + more[..n]);
      if Enabled(s, more[n].event) {
        FullStepAppends(s, more[n].event, more[n].replies);
      }
    }
  }

  function Max0(n: int): nat {
    if n < 0 then 0 else n
  }

  /** `taken` went off the front of `queue + pushed`. */
  lemma TakenFromFront(taken: seq<Record>, left: seq<Record>, queue: seq<Record>, pushed: seq<Record>, k: nat)
    requires taken + left == queue + pushed
    ensures k <= |taken| && k <= |queue| ==> taken[..k] == queue[..k]
    ensures left[Max0(|queue| - |taken|)..] == pushed[Max0(|taken| - |queue|)..]
  {
    var all := queue + pushed;
    assert all[|taken|..] == left && all[..|taken|] == taken;
    if k <= |taken| && k <= |queue| {
      assert taken[..k] == all[..k] == queue[..k];
    }
    if |taken| <= |queue| {
      assert left[|queue| - |taken|..] == all[|queue|..] == pushed;
    } else {
      assert left == all[|taken|..] == pushed[|taken| - |queue|..];
    }
  }

  /** A crash some time after the last save, and a run from the saved queue. Both runs deliver
      from its front, so the songs submitted twice are its first ones, as many as both got
      accepted since the save; and the songs that neither delivered nor queues are exactly
      those pushed after the save and not accepted before the crash. */
  lemma CrashResubmitsExactly(journal: seq<Record>, run: seq<Moment>, unsaved: seq<Moment>,
                              later: seq<Moment>, k: nat)
    requires !Run(Start(journal), run + unsaved).aborted
    requires !Run(Start(Run(Start(journal), run).queue), later).aborted
    ensures var saved := Run(Start(journal), run);
            var crashed := Run(Start(journal), run + unsaved);
            var t := Run(Start(saved.queue), later);
            && Delivered(saved.wire) <= Delivered(crashed.wire)
            && var since := Delivered(crashed.wire)[|Delivered(saved.wire)|..];
               && Delivered(t.wire) + t.queue == saved.queue + PushedRecords(later)
               && since + crashed.queue == saved.queue + PushedRecords(unsaved)
               && (k <= |since| && k <= |Delivered(t.wire)| && k <= |saved.queue| ==>
                     since[..k] == Delivered(t.wire)[..k] == saved.queue[..k])
               && crashed.queue[Max0(|saved.queue| - |since|)..]
                  == PushedRecords(unsaved)[Max0(|since| - |saved.queue|)..]
  {
    hide *;
    RunGrows(journal, run, unsaved);
    var saved := Run(Start(journal), run);
    var crashed := Run(Start(journal), run + unsaved);
    var t := Run(Start(saved.queue), later);
    FifoConservation(journal, run);
    FifoConservation(journal, run + unsaved);
    FifoConservation(saved.queue, later);
    PushedConcat(run, unsaved);
    DeliveredMonotone(saved.wire, crashed.wire);
    var before, after := Delivered(saved.wire), Delivered(crashed.wire);
    OfferedSince(journal, PushedRecords(run), PushedRecords(unsaved), before, saved.queue);
    CancelPrefix(before, after, crashed.queue, saved.queue + PushedRecords(unsaved));
    TakenFromFront(after[|before|..], crashed.queue, saved.queue, PushedRecords(unsaved), k);
    TakenFromFront(Delivered(t.wire), t.queue, saved.queue, PushedRecords(later), k);
  }
}
