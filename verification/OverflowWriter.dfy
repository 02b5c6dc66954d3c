/** The truncating writer of the command line (`cli/overflow/writer.go`).

Output streams and the disk are part of the model: `out` is everything printed to
standard output, and each write is told how the disk behaves. Warnings go elsewhere. */
module OverflowWriter {
  import opened Text

  type Bytes = seq<bv8>

  /** How the temporary file behaves during one write. */
  datatype Disk = Works | CannotCreate | CannotWrite

  datatype State = State(
    limit: int, quiet: bool, out: Bytes, written: nat, totalBytes: nat, truncated: bool, buf: Bytes,
    file: Option<Bytes>)

  function Start(limit: int, quiet: bool): State {
    State(limit, quiet, [], 0, 0, false, [], None)
  }

  /** `Write` on values. */
  function Written(w: State, s: Bytes, disk: Disk): State {
    var w := w.(totalBytes := w.totalBytes + |s|);
    if w.quiet then w.(buf := w.buf + s)
    else if w.limit <= 0 then w.(out := w.out + s)
    else if w.file.None? && disk == CannotCreate then w.(limit := 0, out := w.out + s)
    else if disk == CannotWrite then w.(file := None, limit := 0, truncated := false, out := w.out + s)
    else
      var w := w.(file := Some((if w.file.Some? then w.file.value else []) + s));
      if w.truncated then w
      else
        var remaining := w.limit - w.written;
        if |s| <= remaining then w.(out := w.out + s, written := w.written + |s|)
        else if remaining > 0 then
          w.(out := w.out + s[..remaining], written := w.written + remaining, truncated := true)
        else w.(truncated := true)
  }

  /** `Finish` on values. `notice` is the text that names the file and the total. */
  function Finished(w: State, notice: nat -> Bytes): State {
    if w.quiet then w.(out := w.out + w.buf + [10])
    else if !w.truncated then w.(file := None, out := w.out + [10])
    else w.(out := w.out + notice(w.totalBytes))
  }

  function After(w: State, writes: seq<(Bytes, Disk)>): State {
    if writes == [] then w
    else Written(After(w, writes[..|writes| - 1]), writes[|writes| - 1].0, writes[|writes| - 1].1)
  }

  function All(writes: seq<(Bytes, Disk)>): Bytes {
    if writes == [] then [] else All(writes[..|writes| - 1]) + writes[|writes| - 1].0
  }

  function Take(s: Bytes, n: int): Bytes {
    if n <= 0 then [] else if n >= |s| then s else s[..n]
  }

  class Writer {
    var limit: int
    const quiet: bool
    var out: Bytes
    var written: nat
    var totalBytes: nat
    var truncated: bool
    var buf: Bytes
    /** What the temporary file holds, if there is one. */
    var tmpFile: Option<Bytes>

    function Model(): State
      reads this
    {
      State(limit, quiet, out, written, totalBytes, truncated, buf, tmpFile)
    }

    constructor (limit: int, quiet: bool)
      ensures Model() == Start(limit, quiet)
    {
      this.limit, this.quiet := limit, quiet;
      out, written, totalBytes, truncated, buf, tmpFile := [], 0, 0, false, [], None;
    }

    method Write(s: Bytes, disk: Disk)
      modifies this
      ensures Model() == Written(old(Model()), s, disk)
    {
      totalBytes := totalBytes + |s|;
      if quiet {
        buf := buf + s;
        return;
      }
      if limit <= 0 {
        out := out + s;
        return;
      }
      if tmpFile.None? {
        if disk == CannotCreate {
          limit := 0;
          out := out + s;
          return;
        }
        tmpFile := Some([]);
      }
      if disk == CannotWrite {
        tmpFile := None;
        limit := 0;
        truncated := false;
        out := out + s;
        return;
      }
      tmpFile := Some(tmpFile.value + s);
      if truncated { return; }
      var remaining := limit - written;
      if |s| <= remaining {
        out := out + s;
        written := written + |s|;
      } else {
        if remaining > 0 {
          out := out + s[..remaining];
          written := written + remaining;
        }
        truncated := true;
      }
    }

    method Finish(notice: nat -> Bytes)
      modifies this
      ensures Model() == Finished(old(Model()), notice)
    {
      if quiet {
        out := out + buf + [10];
      } else if !truncated {
        tmpFile := None;
        out := out + [10];
      } else {
        out := out + notice(totalBytes);
      }
    }
  }

  // ---------------------------------------------------------------- what any sequence of writes leaves

  /** The state after the bytes `all` have been written under a positive limit without a failure. */
  predicate Truncates(w: State, limit: int, all: Bytes) {
    && w.out == Take(all, limit) && w.written == |w.out| && w.limit == limit && !w.quiet && w.buf == []
    && (w.truncated <==> |all| > limit)
    && w.totalBytes == |all|
  }

  lemma TakeAppend(a: Bytes, b: Bytes, n: int)
    requires n > 0
    ensures |Take(a, n)| == if |a| <= n then |a| else n
    ensures Take(a + b, n) == Take(a, n) + Take(b, n - |Take(a, n)|)
  {
  }

  lemma WrittenTruncates(w: State, limit: int, all: Bytes, s: Bytes)
    requires limit > 0 && Truncates(w, limit, all) && (w.file.None? ==> all == [])
    requires w.file.Some? ==> w.file.value == all
    ensures Truncates(Written(w, s, Works), limit, all + s) && Written(w, s, Works).file == Some(all + s)
  {
    TakeAppend(all, s, limit);
    assert [] + s == s;
  }

  /** With a positive limit and a disk that works, however the bytes are cut into writes: the first `limit`
  bytes are printed, the file holds them all, and truncation is flagged exactly when there are more. */
  lemma {:induction false} TruncationIsExact(limit: int, writes: seq<(Bytes, Disk)>)
    requires limit > 0 && forall w | w in writes :: w.1 == Works
    ensures Truncates(After(Start(limit, false), writes), limit, All(writes))
    ensures After(Start(limit, false), writes).file == if writes == [] then None else Some(All(writes))
  {
    hide Written;
    if writes != [] {
      var init := writes[..|writes| - 1];
      TruncationIsExact(limit, init);
      assert writes[|writes| - 1] in writes;
      WrittenTruncates(After(Start(limit, false), init), limit, All(init), writes[|writes| - 1].0);
    }
  }

  /** So two ways of cutting the same bytes cannot be told apart once the output is finished. */
  lemma CuttingIsInvisible(limit: int, a: seq<(Bytes, Disk)>, b: seq<(Bytes, Disk)>, notice: nat -> Bytes)
    requires limit > 0 && (forall w | w in a + b :: w.1 == Works) && All(a) == All(b)
    ensures Finished(After(Start(limit, false), a), notice) == Finished(After(Start(limit, false), b), notice)
  {
    hide After, Take;
    assert forall w | w in a :: w in a + b;
    assert forall w | w in b :: w in a + b;
    TruncationIsExact(limit, a);
    TruncationIsExact(limit, b);
  }

  /** Everything goes straight to the output, which is `out` so far. */
  predicate Untruncated(w: State, out: Bytes) {
    w.out == out && w.limit <= 0 && !w.truncated && w.file == None && !w.quiet
  }

  lemma StaysOpen(w: State, out: Bytes, s: Bytes, disk: Disk)
    requires Untruncated(w, out)
    ensures Untruncated(Written(w, s, disk), out + s)
  {
  }

  lemma FailureEnds(w: State, limit: int, all: Bytes, s: Bytes, disk: Disk)
    requires limit > 0 && Truncates(w, limit, all)
    requires disk == CannotWrite || (disk == CannotCreate && w.file.None? && all == [])
    ensures Untruncated(Written(w, s, disk), Take(all, limit) + s)
  {
  }

  /** Without a limit everything is printed as it comes. */
  lemma {:induction false} NothingIsCut(w: State, out: Bytes, writes: seq<(Bytes, Disk)>)
    requires Untruncated(w, out)
    ensures Untruncated(After(w, writes), out + All(writes))
  {
    hide Written, Untruncated;
    if writes == [] {
      assert out + [] == out;
    } else {
      var init, last := writes[..|writes| - 1], writes[|writes| - 1];
      NothingIsCut(w, out, init);
      StaysOpen(After(w, init), out + All(init), last.0, last.1);
      assert out + All(init) + last.0 == out + (All(init) + last.0);
    }
  }

  lemma {:induction false} AfterConcat(w: State, a: seq<(Bytes, Disk)>, b: seq<(Bytes, Disk)>)
    ensures After(w, a + b) == After(After(w, a), b)
  {
    hide Written;
    if b == [] {
      assert a + b == a;
    } else {
      assert (a + b)[..|a + b| - 1] == a + b[..|b| - 1];
      AfterConcat(w, a, b[..|b| - 1]);
    }
  }

  lemma {:induction false} AllConcat(a: seq<(Bytes, Disk)>, b: seq<(Bytes, Disk)>)
    ensures All(a + b) == All(a) + All(b)
  {
    if b == [] {
      assert a + b == a;
    } else {
      assert (a + b)[..|a + b| - 1] == a + b[..|b| - 1];
      AllConcat(a, b[..|b| - 1]);
    }
  }

  lemma AllJoins(before: seq<(Bytes, Disk)>, s: Bytes, disk: Disk, later: seq<(Bytes, Disk)>)
    ensures All(before + [(s, disk)] + later) == All(before) + s + All(later)
  {
    AllConcat(before + [(s, disk)], later);
    AllConcat(before, [(s, disk)]);
    assert [(s, disk)][..0] == [];
    assert All([(s, disk)]) == [] + s;
  }

  lemma TakeLoses(a: Bytes, limit: int, s: Bytes, b: Bytes)
    requires limit > 0
    ensures Take(a, limit) + s + b == a + s + b <==> |a| <= limit
  {
    if |a| > limit { assert |Take(a, limit) + s + b| < |a + s + b|; }
  }

  /** The first failing write and everything after it are printed in full, on top of the first `limit` bytes of
  what came before. */
  lemma AfterFailure(limit: int, before: seq<(Bytes, Disk)>, s: Bytes, disk: Disk, later: seq<(Bytes, Disk)>)
    requires limit > 0 && forall w | w in before :: w.1 == Works
    requires disk == CannotWrite || (disk == CannotCreate && before == [])
    ensures Untruncated(After(Start(limit, false), before + [(s, disk)] + later),
              Take(All(before), limit) + s + All(later))
  {
    hide Take, Untruncated, Truncates;
    var w := After(Start(limit, false), before);
    TruncationIsExact(limit, before);
    FailureEnds(w, limit, All(before), s, disk);
    assert [(s, disk)][..0] == [];
    assert After(w, [(s, disk)]) == Written(After(w, []), s, disk);
    AfterConcat(Start(limit, false), before, [(s, disk)]);
    AfterConcat(Start(limit, false), before + [(s, disk)], later);
    NothingIsCut(Written(w, s, disk), Take(All(before), limit) + s, later);
  }

  /** So nothing is lost exactly when no byte had been cut before the failure. */
  lemma NothingLostIff(limit: int, before: seq<(Bytes, Disk)>, s: Bytes, disk: Disk, later: seq<(Bytes, Disk)>)
    requires limit > 0 && forall w | w in before :: w.1 == Works
    requires disk == CannotWrite || (disk == CannotCreate && before == [])
    ensures After(Start(limit, false), before + [(s, disk)] + later).out == All(before + [(s, disk)] + later)
            <==> |All(before)| <= limit
  {
    hide After, All, Take;
    AfterFailure(limit, before, s, disk, later);
    AllJoins(before, s, disk, later);
    TakeLoses(All(before), limit, s, All(later));
  }

  // ---------------------------------------------------------------- what a finished output is

  lemma {:induction false} QuietHolds(limit: int, writes: seq<(Bytes, Disk)>)
    ensures After(Start(limit, true), writes) == Start(limit, true).(buf := All(writes), totalBytes := |All(writes)|)
  {
    if writes != [] { QuietHolds(limit, writes[..|writes| - 1]); }
  }

  /** A quiet writer prints nothing before the end, whatever the limit and the disk, and then everything at once. */
  lemma QuietPrintsOnce(limit: int, writes: seq<(Bytes, Disk)>, notice: nat -> Bytes)
    ensures After(Start(limit, true), writes).out == []
    ensures var end := Finished(After(Start(limit, true), writes), notice);
      end.out == All(writes) + [10] && end.file == None
  {
    hide After;
    QuietHolds(limit, writes);
    assert [] + All(writes) == All(writes);
  }

  /** With a limit and a disk that works, output within the limit is printed with a newline and leaves no file; of
  longer output the first `limit` bytes are printed with the notice of its size, and the file has it all. */
  lemma FinishedWithLimit(limit: int, writes: seq<(Bytes, Disk)>, notice: nat -> Bytes)
    requires limit > 0 && forall w | w in writes :: w.1 == Works
    ensures var end, all := Finished(After(Start(limit, false), writes), notice), All(writes);
      if |all| <= limit then end.out == all + [10] && end.file == None
      else end.out == all[..limit] + notice(|all|) && end.file == Some(all)
  {
    hide After, All;
    TruncationIsExact(limit, writes);
    if writes == [] { NothingWritten(writes); }
  }

  lemma NothingWritten(writes: seq<(Bytes, Disk)>)
    requires writes == []
    ensures All(writes) == []
  {
  }

  /** Without a limit, and after a failure, the end prints a newline and there is no file. */
  lemma FinishedWithout(limit: int, writes: seq<(Bytes, Disk)>, notice: nat -> Bytes)
    requires limit <= 0
    ensures var end := Finished(After(Start(limit, false), writes), notice);
      end.out == All(writes) + [10] && end.file == None
  {
    hide After, All;
    NothingIsCut(Start(limit, false), [], writes);
    assert [] + All(writes) == All(writes);
  }

  lemma FinishedAfterFailure(limit: int, before: seq<(Bytes, Disk)>, s: Bytes, disk: Disk, later: seq<(Bytes, Disk)>,
                             notice: nat -> Bytes)
    requires limit > 0 && forall w | w in before :: w.1 == Works
    requires disk == CannotWrite || (disk == CannotCreate && before == [])
    ensures var end := Finished(After(Start(limit, false), before + [(s, disk)] + later), notice);
      var kept := if |All(before)| <= limit then All(before) else All(before)[..limit];
      end.out == kept + s + All(later) + [10] && end.file == None
  {
    hide After, All;
    AfterFailure(limit, before, s, disk, later);
  }
}
