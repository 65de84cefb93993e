/** internal/gitlab/gitlab.go: the notes of one merge request and the upsert of the report note. */
module Threads {
  import opened Text

  datatype Note = Note(id: int, author: int, system: bool, body: string)

  /** A discussion: its root note, then the replies. Discussions are listed in the order in which
      they were opened and none goes away, so a discussion's place in the list is its identity. */
  datatype Thread = Thread(notes: seq<Note>)

  /** How a writing API call ends: carried out, refused, or carried out with the answer lost. */
  datatype Fate = Done | Refused | Lost

  /** A report note that may be edited: it bears the marker and nobody has replied. */
  predicate Editable(t: Thread, marker: string) {
    |t.notes| == 1 && !t.notes[0].system && Contains(t.notes[0].body, marker)
  }

  function FirstEditable(ts: seq<Thread>, marker: string): (i: nat)
    ensures i <= |ts|
    ensures forall k | 0 <= k < i :: !Editable(ts[k], marker)
    ensures i < |ts| ==> Editable(ts[i], marker)
  {
    if ts == [] || Editable(ts[0], marker) then 0 else 1 + FirstEditable(ts[1..], marker)
  }

  /** The merge request after an upsert whose listing succeeded; created is the thread GitLab
      would create. */
  function Upserted(ts: seq<Thread>, marker: string, body: string, created: Thread, fate: Fate): seq<Thread> {
    if fate.Refused? then ts else
    var i := FirstEditable(ts, marker);
    if i == |ts| then ts + [created] else ts[i := Thread([ts[i].notes[0].(body := body)])]
  }

  const PER_PAGE := 100

  /** The last page the scan has to read. */
  function LastPage(ts: seq<Thread>, marker: string): nat {
    var i := FirstEditable(ts, marker);
    if i < |ts| then i / PER_PAGE else if ts == [] then 0 else (|ts| - 1) / PER_PAGE
  }

  class MergeRequest {
    var threads: seq<Thread>

    constructor (threads: seq<Thread>)
      ensures this.threads == threads
    {
      this.threads := threads;
    }

    /** pageOk tells which page requests succeed, fate how the one writing call ends. */
    method UpsertNote(marker: string, body: string, created: Thread, pageOk: nat -> bool, fate: Fate)
      returns (ok: bool)
      modifies this
      ensures (forall p | 0 <= p <= LastPage(old(threads), marker) :: pageOk(p)) ==>
                threads == Upserted(old(threads), marker, body, created, fate) && ok == fate.Done?
      ensures (exists p | 0 <= p <= LastPage(old(threads), marker) :: !pageOk(p)) ==>
                threads == old(threads) && !ok
    {
      var page := 0;
      var first := FirstEditable(threads, marker);
      while true
        invariant threads == old(threads)
        invariant page * PER_PAGE <= first
        invariant page == 0 || page * PER_PAGE < |threads|
        invariant forall p | 0 <= p < page :: pageOk(p)
        decreases |threads| - page * PER_PAGE
      {
        if !pageOk(page) {
          return false;
        }
        var from := page * PER_PAGE;
        var to := if from + PER_PAGE < |threads| then from + PER_PAGE else |threads|;
        for i := from to to
          invariant threads == old(threads)
          invariant i <= first
        {
          var d := threads[i];
          if |d.notes| == 0 {
            continue;
          }
          var root := d.notes[0];
          if root.system || !Contains(root.body, marker) || |d.notes| > 1 {
            continue;
          }
          if fate.Refused? {
            return false;
          }
          threads := threads[i := Thread([root.(body := body)])];
          return fate.Done?;
        }
        if to == |threads| {
          break;
        }
        page := page + 1;
      }
      if fate.Refused? {
        return false;
      }
      threads := threads + [created];
      return fate.Done?;
    }
  }

  // ---- one editable report per merge request --------------------------------------------

  predicate AtMostOneEditable(ts: seq<Thread>, marker: string) {
    forall i, j | 0 <= i < j < |ts| :: !(Editable(ts[i], marker) && Editable(ts[j], marker))
  }

  /** What an upsert that is carried out leaves: exactly one editable report, which shows the
      new body, and every other thread as it was. */
  lemma UpsertShowsBody(ts: seq<Thread>, marker: string, body: string, created: Thread, fate: Fate) returns (k: nat)
    requires AtMostOneEditable(ts, marker) && !fate.Refused? && Contains(body, marker)
    requires |created.notes| == 1 && !created.notes[0].system && created.notes[0].body == body
    ensures var us := Upserted(ts, marker, body, created, fate);
            && |ts| <= |us| <= |ts| + 1 && k < |us|
            && Editable(us[k], marker) && us[k].notes[0].body == body
            && (forall i | 0 <= i < |us| :: Editable(us[i], marker) <==> i == k)
            && (forall i | 0 <= i < |ts| && i != k :: us[i] == ts[i])
            && (k < |ts| <==> |us| == |ts|)
            && (k < |ts| ==> Editable(ts[k], marker) && us[k].notes[0] == ts[k].notes[0].(body := body))
            && (k == |ts| ==> us[k] == created)
  {
    k := FirstEditable(ts, marker);
  }

  /** A thread with a reply, or whose root is a system note or bears no marker, is never touched. */
  lemma UpsertKeepsOthers(ts: seq<Thread>, marker: string, body: string, created: Thread, fate: Fate, i: nat)
    requires i < |ts|
    requires |ts[i].notes| != 1 || ts[i].notes[0].system || !Contains(ts[i].notes[0].body, marker)
    ensures i < |Upserted(ts, marker, body, created, fate)| && Upserted(ts, marker, body, created, fate)[i] == ts[i]
  {
  }

  /** Upserting again changes the body only: the merge request gets no second report. */
  lemma UpsertTwice(ts: seq<Thread>, marker: string, b1: string, f1: Thread, b2: string, f2: Thread)
    requires AtMostOneEditable(ts, marker) && Contains(b1, marker)
    requires |f1.notes| == 1 && !f1.notes[0].system && f1.notes[0].body == b1
    ensures Upserted(Upserted(ts, marker, b1, f1, Done), marker, b2, f2, Done) ==
            Upserted(ts, marker, b2, Thread([f1.notes[0].(body := b2)]), Done)
  {
    var k := UpsertShowsBody(ts, marker, b1, f1, Done);
    var once := Upserted(ts, marker, b1, f1, Done);
    assert FirstEditable(once, marker) == k;
  }

  // ---- one report per merge request? ------------------------------------------------------

  predicate IsReport(t: Thread, marker: string) {
    t.notes != [] && !t.notes[0].system && Contains(t.notes[0].body, marker)
  }

  function CountReports(ts: seq<Thread>, marker: string): nat {
    if ts == [] then 0
    else CountReports(ts[..|ts| - 1], marker) + if IsReport(ts[|ts| - 1], marker) then 1 else 0
  }

  lemma {:induction false} CountUpdated(ts: seq<Thread>, i: nat, t: Thread, marker: string)
    requires i < |ts| && (IsReport(t, marker) <==> IsReport(ts[i], marker))
    ensures CountReports(ts[i := t], marker) == CountReports(ts, marker)
  {
    hide IsReport;
    var n := |ts| - 1;
    if i < n {
      assert ts[i := t][..n] == ts[..n][i := t];
      CountUpdated(ts[..n], i, t, marker);
    } else {
      assert ts[i := t][..n] == ts[..n];
    }
  }

  /** The documentation promises one report note per merge request. An upsert that is carried out
      keeps the number of report notes exactly when one of them may be edited; otherwise it adds
      one, so one note is left exactly when there was none, or one without a reply. */
  lemma OneReportIff(ts: seq<Thread>, marker: string, body: string, created: Thread, fate: Fate)
    requires !fate.Refused? && Contains(body, marker)
    requires |created.notes| == 1 && !created.notes[0].system && created.notes[0].body == body
    ensures var before := CountReports(ts, marker);
            var after := CountReports(Upserted(ts, marker, body, created, fate), marker);
            var editable := exists i | 0 <= i < |ts| :: Editable(ts[i], marker);
            && after == before + (if editable then 0 else 1)
            && (after == 1 <==> before == 0 || (before == 1 && editable))
  {
    var i := FirstEditable(ts, marker);
    if i < |ts| {
      CountUpdated(ts, i, Thread([ts[i].notes[0].(body := body)]), marker);
      CountsEditable(ts, i, marker);
    } else {
      assert (ts + [created])[..|ts|] == ts;
    }
  }

  lemma {:induction false} CountsEditable(ts: seq<Thread>, i: nat, marker: string)
    requires i < |ts| && Editable(ts[i], marker)
    ensures CountReports(ts, marker) >= 1
  {
    if i < |ts| - 1 {
      CountsEditable(ts[..|ts| - 1], i, marker);
    }
  }

  /** So a report that somebody has discussed gets company: the promise fails. */
  lemma DiscussedReportGetsSecond(report: Note, reply: Note, marker: string, body: string, created: Thread)
    requires !report.system && Contains(report.body, marker) && Contains(body, marker)
    requires |created.notes| == 1 && !created.notes[0].system && created.notes[0].body == body
    ensures var ts := [Thread([report, reply])];
            CountReports(ts, marker) == 1 && CountReports(Upserted(ts, marker, body, created, Done), marker) == 2
  {
    var ts := [Thread([report, reply])];
    assert ts[..0] == [];
    assert CountReports([], marker) == 0 && IsReport(ts[0], marker);
    OneReportIff(ts, marker, body, created, Done);
  }
}
