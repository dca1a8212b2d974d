/** The two JSON documents of src/lib/log.ts as an abstract store: the
    position log, read whole and replaced whole, and the error log, an array
    that trackError extends at the end.  Reads never throw; a write either
    replaces the file or, when the file cannot be opened, is swallowed. */
module Store {
  import opened Common
  import opened Domain

  /** A JSON file as the bot sees it: parsed content, or a file that is
      missing or does not parse. */
  datatype Doc<T> = Stored(content: T) | Unreadable

  /** One element of error-log.json. */
  datatype ErrorEntry = ErrorEntry(kind: ErrorKind, message: string, chain: Option<string>, time: string)

  /** getLog: the parsed document, or undefined when it cannot be read. */
  function GetLog<T>(doc: Doc<T>): (r: Option<T>)
    ensures r.Some? <==> doc.Stored?
    ensures doc.Stored? ==> r.value == doc.content
  {
    match doc
    case Stored(c) => Some(c)
    case Unreadable => None
  }

  /** saveLog: the new document replaces the old one whole; a write that
      cannot open the file leaves it as it was. */
  function SaveLog<T>(doc: Doc<T>, x: T, writable: bool): (r: Doc<T>)
    ensures writable ==> GetLog(r) == Some(x)
    ensures !writable ==> r == doc
  {
    if writable then Stored(x) else doc
  }

  /** getErrorLog: the stored entries, or [] when the file cannot be read. */
  function GetErrorLog(doc: Doc<seq<ErrorEntry>>): (r: seq<ErrorEntry>)
    ensures doc.Unreadable? ==> r == []
    ensures doc.Stored? ==> r == doc.content
  {
    match doc
    case Stored(c) => c
    case Unreadable => []
  }

  /** The entry trackError writes: the generated timestamp first, then the
      report spread over it, so a time the caller supplies wins. */
  function Stamp(report: ErrorReport, now: string): (e: ErrorEntry)
    ensures e.kind == report.kind && e.message == report.message && e.chain == report.chain
    ensures report.time.Some? ==> e.time == report.time.value
    ensures report.time.None? ==> e.time == now
  {
    ErrorEntry(report.kind, report.message, report.chain, report.time.GetOr(now))
  }

  function StampAll(reports: seq<ErrorReport>, now: string): (r: seq<ErrorEntry>)
    ensures |r| == |reports|
    ensures forall i | 0 <= i < |r| :: r[i] == Stamp(reports[i], now)
  {
    if |reports| == 0 then [] else [Stamp(reports[0], now)] + StampAll(reports[1..], now)
  }

  /** trackError: read the error log (empty when unreadable), push one entry
      at the end and write the array back. */
  function TrackError(doc: Doc<seq<ErrorEntry>>, report: ErrorReport, now: string, writable: bool): (r: Doc<seq<ErrorEntry>>)
    ensures writable ==> r.Stored? && |GetErrorLog(r)| == |GetErrorLog(doc)| + 1
    ensures writable ==> GetErrorLog(r)[..|GetErrorLog(doc)|] == GetErrorLog(doc)
    ensures writable ==> GetErrorLog(r)[|GetErrorLog(doc)|] == Stamp(report, now)
    ensures writable && doc.Unreadable? ==> GetErrorLog(r) == [Stamp(report, now)]
    ensures !writable ==> r == doc
  {
    var entries := GetErrorLog(doc) + [Stamp(report, now)];
    assert entries[..|GetErrorLog(doc)|] == GetErrorLog(doc);
    if writable then Stored(entries) else doc
  }

  /** Both documents. */
  datatype Docs<L> = Docs(log: Doc<L>, errors: Doc<seq<ErrorEntry>>)

  /** Which of the two files accept writes. */
  datatype Disk = Disk(logWritable: bool, errorsWritable: bool)

  /** The position log after saveLog has been called with each document in
      turn. */
  function SaveAll<T>(doc: Doc<T>, xs: seq<T>, writable: bool): Doc<T>
    decreases |xs|
  {
    if |xs| == 0 then doc else SaveAll(SaveLog(doc, xs[0], writable), xs[1..], writable)
  }

  /** The error log after trackError has been called with each report in turn. */
  function TrackAll(doc: Doc<seq<ErrorEntry>>, reports: seq<ErrorReport>, now: string, writable: bool): Doc<seq<ErrorEntry>>
    decreases |reports|
  {
    if |reports| == 0 then doc else TrackAll(TrackError(doc, reports[0], now, writable), reports[1..], now, writable)
  }

  /** The store after a trace: its saved documents go to the position log,
      its reports to the error log.  Nothing else touches the two files. */
  function Apply<L>(d: Docs<L>, t: Trace<L>, now: string, disk: Disk): (r: Docs<L>)
    ensures t.logs == [] ==> r.log == d.log
    ensures t.errors == [] ==> r.errors == d.errors
  {
    Docs(SaveAll(d.log, t.logs, disk.logWritable), TrackAll(d.errors, t.errors, now, disk.errorsWritable))
  }

  function Last<T>(s: seq<T>): T
    requires |s| > 0
  {
    s[|s| - 1]
  }

  /** The position log after a series of saves: untouched when there were
      none or the file is not writable, otherwise the last document saved. */
  lemma {:induction false} SaveAllLast<T>(doc: Doc<T>, xs: seq<T>, writable: bool)
    ensures xs == [] || !writable ==> SaveAll(doc, xs, writable) == doc
    ensures writable && xs != [] ==> SaveAll(doc, xs, writable) == Stored(Last(xs))
    decreases |xs|
  {
    if |xs| > 0 {
      SaveAllLast(SaveLog(doc, xs[0], writable), xs[1..], writable);
      if |xs| > 1 {
        assert Last(xs[1..]) == Last(xs);
      }
    }
  }

  /** The error log after a series of reports: the old entries, then one
      stamped entry per report, in the order they were tracked. */
  lemma {:induction false} TrackAllAppends(doc: Doc<seq<ErrorEntry>>, reports: seq<ErrorReport>, now: string)
    ensures GetErrorLog(TrackAll(doc, reports, now, true)) == GetErrorLog(doc) + StampAll(reports, now)
    decreases |reports|
  {
    if |reports| == 0 {
      assert GetErrorLog(doc) + [] == GetErrorLog(doc);
    } else {
      var stamped := Stamp(reports[0], now);
      var doc1 := TrackError(doc, reports[0], now, true);
      TrackAllAppends(doc1, reports[1..], now);
      assert GetErrorLog(doc1) == GetErrorLog(doc) + [stamped];
      assert StampAll(reports, now) == [stamped] + StampAll(reports[1..], now);
      AppendAssoc(GetErrorLog(doc), [stamped], StampAll(reports[1..], now));
    }
  }

  /** A read-only error log stays as it was. */
  lemma {:induction false} TrackAllReadOnly(doc: Doc<seq<ErrorEntry>>, reports: seq<ErrorReport>, now: string)
    ensures TrackAll(doc, reports, now, false) == doc
    decreases |reports|
  {
    if |reports| > 0 {
      TrackAllReadOnly(TrackError(doc, reports[0], now, false), reports[1..], now);
    }
  }

  /** Saving in two rounds is saving everything in one. */
  lemma {:induction false} SaveAllThen<T>(doc: Doc<T>, xs: seq<T>, ys: seq<T>, writable: bool)
    ensures SaveAll(doc, xs + ys, writable) == SaveAll(SaveAll(doc, xs, writable), ys, writable)
    decreases |xs|
  {
    if |xs| == 0 {
      assert xs + ys == ys;
    } else {
      assert (xs + ys)[1..] == xs[1..] + ys;
      SaveAllThen(SaveLog(doc, xs[0], writable), xs[1..], ys, writable);
    }
  }

  /** Tracking in two rounds is tracking everything in one. */
  lemma {:induction false} TrackAllThen(doc: Doc<seq<ErrorEntry>>, xs: seq<ErrorReport>, ys: seq<ErrorReport>, now: string, writable: bool)
    ensures TrackAll(doc, xs + ys, now, writable) == TrackAll(TrackAll(doc, xs, now, writable), ys, now, writable)
    decreases |xs|
  {
    if |xs| == 0 {
      assert xs + ys == ys;
    } else {
      assert (xs + ys)[1..] == xs[1..] + ys;
      TrackAllThen(TrackError(doc, xs[0], now, writable), xs[1..], ys, now, writable);
    }
  }

  /** Applying two calls' traces one after the other is applying their
      sequenced trace. */
  lemma ApplyThen<L>(d: Docs<L>, a: Trace<L>, b: Trace<L>, now: string, disk: Disk)
    ensures Apply(d, Then(a, b), now, disk) == Apply(Apply(d, a, now, disk), b, now, disk)
  {
    SaveAllThen(d.log, a.logs, b.logs, disk.logWritable);
    TrackAllThen(d.errors, a.errors, b.errors, now, disk.errorsWritable);
  }

  /** The position log after a trace: untouched when nothing was saved or
      the file is not writable, otherwise the last document saved. */
  lemma ApplyLog<L>(d: Docs<L>, t: Trace<L>, now: string, disk: Disk)
    ensures t.logs == [] || !disk.logWritable ==> Apply(d, t, now, disk).log == d.log
    ensures disk.logWritable && t.logs != [] ==> GetLog(Apply(d, t, now, disk).log) == Some(Last(t.logs))
  {
    SaveAllLast(d.log, t.logs, disk.logWritable);
  }

  /** The error log after a trace: the old entries followed by one stamped
      entry per report when writable, unchanged otherwise. */
  lemma ApplyErrors<L>(d: Docs<L>, t: Trace<L>, now: string, disk: Disk)
    ensures disk.errorsWritable ==>
      GetErrorLog(Apply(d, t, now, disk).errors) == GetErrorLog(d.errors) + StampAll(t.errors, now)
    ensures !disk.errorsWritable ==> Apply(d, t, now, disk).errors == d.errors
  {
    if disk.errorsWritable {
      TrackAllAppends(d.errors, t.errors, now);
    } else {
      TrackAllReadOnly(d.errors, t.errors, now);
    }
  }
}
