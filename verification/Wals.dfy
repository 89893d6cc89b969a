/** The log as a directory of numbered segments: writing with rotation, opening past
    the highest, and replaying in order above a checkpoint. */
module Wals {
  import opened Sets
  import opened BitStreams
  import opened WalFormat

  type Dir = map<nat, seq<Byte>>
  type Log = map<nat, seq<Record>>

  predicate AllWritable(rs: seq<Record>) {
    forall r :: r in rs ==> Writable(r)
  }

  /** Every segment holds exactly its records. */
  ghost predicate Complete(files: Dir, log: Log) {
    && files.Keys == log.Keys
    && forall i :: i in log ==> AllWritable(log[i]) && files[i] == Encoded(log[i])
  }

  /** A crash may have cut the last segment, and only that one. */
  ghost predicate CutAt(files: Dir, log: Log, last: nat, k: nat) {
    && files.Keys == log.Keys && last in log
    && (forall i :: i in log ==> i <= last && AllWritable(log[i]))
    && (forall i :: i in log && i < last ==> files[i] == Encoded(log[i]))
    && k <= |Encoded(log[last])| && files[last] == Encoded(log[last])[..k]
  }

  lemma {:induction false} EncodedAppend(rs: seq<Record>, r: Record)
    requires AllWritable(rs) && Writable(r)
    ensures AllWritable(rs + [r]) && Encoded(rs + [r]) == Encoded(rs) + EncodeRecord(r)
  {
    if rs == [] {
      assert [] + [r] == [r] && [r][1..] == [];
      assert Encoded([r]) == EncodeRecord(r) + Encoded([]);
      assert EncodeRecord(r) + [] == EncodeRecord(r);
    } else {
      EncodedAppend(rs[1..], r);
      assert (rs + [r])[1..] == rs[1..] + [r];
    }
  }

  // ---- what a segment holds when a write fails part way ----

  /** The first n bytes of a record's encoding: all of them, or what a failed write
      left behind. */
  datatype Piece = Piece(record: Record, n: nat)

  predicate PieceOk(p: Piece) {
    Writable(p.record) && 0 < p.n <= |EncodeRecord(p.record)|
  }

  predicate IsWhole(p: Piece)
    requires PieceOk(p)
  {
    p.n == |EncodeRecord(p.record)|
  }

  predicate PiecesOk(ps: seq<Piece>) { forall i :: 0 <= i < |ps| ==> PieceOk(ps[i]) }

  function Bytes(ps: seq<Piece>): seq<Byte>
    requires PiecesOk(ps)
  {
    if ps == [] then [] else Bytes(ps[..|ps| - 1]) + EncodeRecord(ps[|ps| - 1].record)[..ps[|ps| - 1].n]
  }

  /** The records written whole. */
  function WrittenIn(ps: seq<Piece>): seq<Record>
    requires PiecesOk(ps)
  {
    if ps == [] then []
    else WrittenIn(ps[..|ps| - 1]) + if IsWhole(ps[|ps| - 1]) then [ps[|ps| - 1].record] else []
  }

  /** No write to the segment has failed part way. */
  predicate Intact(ps: seq<Piece>)
    requires PiecesOk(ps)
  {
    forall i :: 0 <= i < |ps| ==> IsWhole(ps[i])
  }

  lemma {:induction false} IntactIsEncoded(ps: seq<Piece>)
    requires PiecesOk(ps) && Intact(ps)
    ensures AllWritable(WrittenIn(ps)) && Bytes(ps) == Encoded(WrittenIn(ps))
  {
    if ps != [] {
      var p, last := ps[..|ps| - 1], ps[|ps| - 1];
      IntactIsEncoded(p);
      assert IsWhole(last);
      EncodedAppend(WrittenIn(p), last.record);
      SliceAll(EncodeRecord(last.record));
    }
  }

  /** The bytes a segment's size counter has counted: those of whole records. */
  function Counted(ps: seq<Piece>): nat
    requires PiecesOk(ps)
  {
    if ps == [] then 0 else Counted(ps[..|ps| - 1]) + (if IsWhole(ps[|ps| - 1]) then ps[|ps| - 1].n else 0)
  }

  type Pieces = map<nat, seq<Piece>>

  lemma PieceAppend(ps: seq<Piece>, p: Piece, qs: seq<Piece>)
    requires PiecesOk(ps) && PieceOk(p) && qs == ps + [p]
    ensures PiecesOk(qs) && Bytes(qs) == Bytes(ps) + EncodeRecord(p.record)[..p.n]
    ensures Counted(qs) == Counted(ps) + (if IsWhole(p) then p.n else 0)
    ensures Intact(qs) <==> Intact(ps) && IsWhole(p)
  {
    assert qs[..|qs| - 1] == ps && qs[|ps|] == p;
    if Intact(qs) { forall i | 0 <= i < |ps| ensures IsWhole(ps[i]) { assert IsWhole(qs[i]); } }
  }

  /** What the file system does with one WriteRecordGen: it may stop a write part way,
      or fail a sync, a close or an open. */
  datatype Io = Fine | ShortWrite(n: nat) | SyncFails | RotateSyncFails | CloseFails | OpenFails(created: bool)

  ghost predicate LaidAt(files: Dir, log: Pieces, i: nat)
    requires i in log && i in files
  {
    PiecesOk(log[i]) && files[i] == Bytes(log[i])
  }

  /** Every file holds its pieces. */
  ghost predicate Laid(files: Dir, log: Pieces) {
    files.Keys == log.Keys && forall i :: i in log ==> LaidAt(files, log, i)
  }

  lemma LaidWith(files: Dir, log: Pieces, i: nat, f: seq<Byte>, ps: seq<Piece>)
    requires Laid(files, log) && PiecesOk(ps) && f == Bytes(ps)
    ensures Laid(files[i := f], log[i := ps])
  {
    var files', log' := files[i := f], log[i := ps];
    forall k | k in log' ensures LaidAt(files', log', k) {
      if k != i { assert LaidAt(files, log, k); }
    }
  }

  /** The segments' numbers: none past the active one, but for one a failed open left. */
  predicate Numbered(log: Pieces, seg: nat, broken: bool) {
    seg in log && forall i :: i in log ==> i <= seg || (broken && i == seg + 1)
  }

  ghost predicate Sound(files: Dir, log: Pieces, seg: nat, written: nat, broken: bool) {
    Laid(files, log) && Numbered(log, seg, broken) && LaidAt(files, log, seg) && written == Counted(log[seg])
  }

  class Wal {
    const segMaxBytes: nat
    const syncEveryN: nat
    var files: Dir
    var segIndex: nat
    var written: nat
    var sinceSynced: nat
    var closed: bool
    var broken: bool
    ghost var log: Pieces

    ghost predicate Valid() reads this {
      Sound(files, log, segIndex, written, broken)
    }

    /** Open: a fresh segment one past the highest, so an old one is never appended to. */
    constructor (dir: Dir, max: nat, every: nat, ghost pieces: Pieces)
      requires Laid(dir, pieces)
      ensures Valid() && !broken && !closed && segMaxBytes == max && syncEveryN == every && sinceSynced == 0
      ensures segIndex !in dir && files == dir[segIndex := []] && log == pieces[segIndex := []]
      ensures segIndex == 1 || segIndex - 1 in dir
    {
      segMaxBytes, syncEveryN := max, every;
      var maxIdx := MaxIndex(dir);
      segIndex, written, sinceSynced, closed, broken := maxIdx + 1, 0, 0, false, false;
      files := dir[maxIdx + 1 := []];
      log := pieces[maxIdx + 1 := []];
      LaidWith(dir, pieces, maxIdx + 1, [], []);
    }

    /** Whether a record would be taken at all. */
    predicate Takes(r: Record) reads this { !broken && !closed && Writable(r) }

    /** How a call on a taken record goes. */
    function Verdict(r: Record, io: Io): Ending
      requires Writable(r)
      reads this
    {
      if io.ShortWrite? || (io.SyncFails? && 0 < syncEveryN <= sinceSynced + 1) then Refused
      else if written + |EncodeRecord(r)| < segMaxBytes then Accepted
      else if io.RotateSyncFails? then Refused
      else if io.CloseFails? || io.OpenFails? then Ended
      else Rotated
    }

    /** Appends one record to the active segment, syncs when due, and rotates when the
        segment is full. What a call leaves, whatever fails: a refusal before the write
        leaves all as it was; a short write leaves its bytes in the segment, and the
        writer goes on; a failed sync leaves the record; a failed close or open ends the
        writer. */
    method WriteRecordGen(r: Record, io: Io) returns (ok: bool)
      requires Valid() && Int64Fields(r)
      modifies this
      ensures Valid()
      ensures !old(Takes(r)) ==> !ok && files == old(files) && log == old(log) && segIndex == old(segIndex) && closed == old(closed) && broken == old(broken)
      ensures old(Takes(r)) ==> Wrote(old(log), old(segIndex), r, io, old(Verdict(r, io)), ok, log, segIndex, closed || broken)
    {
      if broken { return false; }
      var valid := ValidateLabels(r);
      if !valid || closed { return false; }
      ok := WriteTaken(r, io);
    }

    method WriteTaken(r: Record, io: Io) returns (ok: bool)
      requires Valid() && Takes(r)
      modifies this
      ensures Valid() && Wrote(old(log), old(segIndex), r, io, old(Verdict(r, io)), ok, log, segIndex, closed || broken)
    {
      ghost var v, log0, seg := Verdict(r, io), log, segIndex;
      ok := Persist(r, io);
      if !ok || written < segMaxBytes {
        NotRotated(log0, seg, r, io, v, ok);
        return;
      }
      ghost var mid := log;
      ok := Rotate(io);
      TriedToRotate(log0, seg, r, io, v, ok, mid, log);
    }

    /** The write, and the sync when one is due. */
    method Persist(r: Record, io: Io) returns (ok: bool)
      requires Valid() && Writable(r)
      modifies this`files, this`log, this`written, this`sinceSynced
      ensures Valid() && log == WithLeft(old(log), segIndex, r, io)
      ensures ok <==> !io.ShortWrite? && !(io.SyncFails? && 0 < syncEveryN <= old(sinceSynced) + 1)
      ensures ok ==> written == old(written) + |EncodeRecord(r)|
    {
      var n := AppendRecord(r, io);
      if io.ShortWrite? { return false; }
      written := written + n;
      sinceSynced := sinceSynced + 1;
      if syncEveryN > 0 && sinceSynced >= syncEveryN {
        if io.SyncFails? { return false; }
        sinceSynced := 0;
      }
      ok := true;
    }

    /** The full segment is synced and closed, and the next one opened. */
    method Rotate(io: Io) returns (ok: bool)
      requires Valid() && !broken && !closed
      modifies this
      ensures Valid() && (ok <==> !io.RotateSyncFails? && !io.CloseFails? && !io.OpenFails?)
      ensures closed || broken <==> io.CloseFails? || io.OpenFails?
      ensures segIndex == old(segIndex) + (if ok then 1 else 0)
      ensures log == if ok || (io.OpenFails? && io.created) then WithSegment(old(log), old(segIndex)) else old(log)
    {
      if io.RotateSyncFails? { return false; }
      closed := true;
      if io.CloseFails? { return false; }
      broken := true;
      ok := OpenSegment(io);
      if ok { broken := false; }
    }

    /** The write itself. */
    method AppendRecord(r: Record, io: Io) returns (n: nat)
      requires Laid(files, log) && segIndex in log && LaidAt(files, log, segIndex) && Writable(r)
      modifies this`files, this`log
      ensures Laid(files, log) && log == WithLeft(old(log), segIndex, r, io) && LaidAt(files, log, segIndex)
      ensures !io.ShortWrite? ==> n == |EncodeRecord(r)|
      ensures Counted(log[segIndex]) == old(Counted(log[segIndex])) + (if io.ShortWrite? then 0 else |EncodeRecord(r)|)
    {
      var data := EncodeInto(r);
      n := if io.ShortWrite? then Cut(io.n, data.Length - 1) else data.Length;
      ghost var files0, log0 := files, log;
      if n > 0 { files := files[segIndex := files[segIndex] + data[..n]]; }
      log := WithLeft(log, segIndex, r, io);
      WriteLaid(files0, log0, segIndex, r, io, n, files, log);
    }

    method OpenSegment(io: Io) returns (ok: bool)
      requires Valid() && broken && Sound(files, log, segIndex, written, false)
      modifies this`files, this`written, this`sinceSynced, this`log, this`segIndex, this`closed
      ensures Valid() && (ok <==> !io.OpenFails?) && segIndex == old(segIndex) + (if ok then 1 else 0)
      ensures log == if ok || io.created then WithSegment(old(log), old(segIndex)) else old(log)
      ensures ok ==> !closed && Sound(files, log, segIndex, written, false)
    {
      if io.OpenFails? && !io.created { return false; }
      var next := segIndex + 1;
      SegmentLaid(files, log, segIndex, files[next := []]);
      files := files[next := []];
      log := WithSegment(log, segIndex);
      if io.OpenFails? { return false; }
      segIndex, written, sinceSynced, closed := next, 0, 0, false;
      ok := true;
    }
  }

  /** How a write ends: refused, accepted, accepted with a new segment, or refused with
      the writer out of use. */
  datatype Ending = Refused | Accepted | Rotated | Ended

  function WithLeft(log: Pieces, seg: nat, r: Record, io: Io): Pieces
    requires seg in log && Writable(r)
  {
    log[seg := log[seg] + LeftBy(r, io)]
  }

  function WithSegment(log: Pieces, seg: nat): Pieces { log[seg + 1 := []] }

  function LogAfter(log: Pieces, seg: nat, r: Record, io: Io, v: Ending): Pieces
    requires seg in log && Writable(r)
  {
    var after := WithLeft(log, seg, r, io);
    if v.Rotated? || (v.Ended? && io.OpenFails? && io.created) then WithSegment(after, seg) else after
  }

  lemma WriteLaid(files: Dir, log: Pieces, seg: nat, r: Record, io: Io, n: nat, files': Dir, log': Pieces)
    requires Laid(files, log) && seg in log && LaidAt(files, log, seg) && Writable(r)
    requires n == if io.ShortWrite? then Cut(io.n, |EncodeRecord(r)| - 1) else |EncodeRecord(r)|
    requires log' == WithLeft(log, seg, r, io)
    requires files' == if n > 0 then files[seg := files[seg] + EncodeRecord(r)[..n]] else files
    ensures Laid(files', log') && LaidAt(files', log', seg)
    ensures Counted(log'[seg]) == Counted(log[seg]) + (if io.ShortWrite? then 0 else |EncodeRecord(r)|)
  {
    LeftIs(log[seg], r, io, n);
    if n > 0 {
      LaidWith(files, log, seg, files[seg] + EncodeRecord(r)[..n], log[seg] + [Piece(r, n)]);
    } else {
      assert log[seg := log[seg]] == log;
    }
    assert LaidAt(files', log', seg);
  }

  lemma SegmentLaid(files: Dir, log: Pieces, seg: nat, files': Dir)
    requires Laid(files, log) && seg in log && LaidAt(files, log, seg) && Numbered(log, seg, false) && files' == files[seg + 1 := []]
    ensures var log' := WithSegment(log, seg);
      Sound(files', log', seg + 1, 0, false) && Sound(files', log', seg + 1, 0, true) && Sound(files', log', seg, Counted(log[seg]), true)
  {
    LaidWith(files, log, seg + 1, [], []);
    assert LaidAt(files, log, seg);
  }

  /** All that a call on a taken record leaves: its answer, the log, the active segment,
      and whether the writer is out of use. */
  ghost predicate Wrote(log: Pieces, seg: nat, r: Record, io: Io, v: Ending, ok: bool, log': Pieces, seg': nat, ended: bool)
    requires seg in log && Writable(r)
  {
    && (ok <==> v.Accepted? || v.Rotated?) && (ended <==> v.Ended?)
    && seg' == seg + (if v.Rotated? then 1 else 0) && log' == LogAfter(log, seg, r, io, v)
  }

  lemma NotRotated(log: Pieces, seg: nat, r: Record, io: Io, v: Ending, ok: bool)
    requires seg in log && Writable(r) && v == if ok then Accepted else Refused
    ensures Wrote(log, seg, r, io, v, ok, WithLeft(log, seg, r, io), seg, false)
  {
  }

  lemma TriedToRotate(log: Pieces, seg: nat, r: Record, io: Io, v: Ending, ok: bool, mid: Pieces, after: Pieces)
    requires seg in log && Writable(r) && mid == WithLeft(log, seg, r, io)
    requires v == if ok then Rotated else if io.RotateSyncFails? then Refused else Ended
    requires after == if ok || (io.OpenFails? && io.created) then WithSegment(mid, seg) else mid
    requires io.RotateSyncFails? || io.CloseFails? ==> !ok
    ensures Wrote(log, seg, r, io, v, ok, after, if ok then seg + 1 else seg, v.Ended?)
  {
  }

  lemma LeftIs(ps: seq<Piece>, r: Record, io: Io, n: nat)
    requires PiecesOk(ps) && Writable(r) && n == if io.ShortWrite? then Cut(io.n, |EncodeRecord(r)| - 1) else |EncodeRecord(r)|
    ensures ps + LeftBy(r, io) == if n == 0 then ps else ps + [Piece(r, n)]
    ensures n > 0 ==> PiecesOk(ps + [Piece(r, n)]) && Bytes(ps + [Piece(r, n)]) == Bytes(ps) + EncodeRecord(r)[..n]
    ensures PiecesOk(ps + LeftBy(r, io)) && Counted(ps + LeftBy(r, io)) == Counted(ps) + (if io.ShortWrite? then 0 else |EncodeRecord(r)|)
  {
    if n > 0 { PieceAppend(ps, Piece(r, n), ps + [Piece(r, n)]); } else { assert ps + [] == ps; }
  }

  /** What a call leaves in the segment. */
  function LeftBy(r: Record, io: Io): (ps: seq<Piece>)
    requires Writable(r)
    ensures PiecesOk(ps)
  {
    var all := |EncodeRecord(r)|;
    var n := if io.ShortWrite? then Cut(io.n, all - 1) else all;
    assert all >= 4;
    if n == 0 then [] else [Piece(r, n)]
  }

  /** A write that reports an error has stopped before its last byte. */
  function Cut(n: nat, most: nat): nat { if n < most then n else most }

  // ---- what a short write costs ----

  lemma {:induction false} ReplayAfter(rs: seq<Record>, s: seq<Byte>, isLast: bool)
    requires AllWritable(rs)
    ensures Replay(Encoded(rs) + s, isLast) == Ahead(rs, |Encoded(rs)|, Replay(s, isLast))
  {
    if rs == [] {
      assert Encoded(rs) + s == s;
      AheadOfNothing(Replay(s, isLast));
    } else {
      var r, tail := rs[0], rs[1..];
      ReplayAfter(tail, s, isLast);
      ConcatAssoc(EncodeRecord(r), Encoded(tail), s);
      ReplayStep(r, Encoded(tail) + s, isLast);
      AheadBefore(r, |EncodeRecord(r)|, tail, |Encoded(tail)|, Replay(s, isLast), rs);
    }
  }

  lemma AheadBefore(r: Record, a: nat, tail: seq<Record>, b: nat, more: Replayed, rs: seq<Record>)
    requires rs != [] && r == rs[0] && tail == rs[1..]
    ensures Before(r, a, Ahead(tail, b, more)) == Ahead(rs, a + b, more)
  {
    assert rs == [r] + tail;
    ConcatAssoc([r], tail, more.records);
  }

  /** A segment is a sequence of whole records after a write exactly when the write was
      not cut: left short, its bytes are those of no records at all. */
  lemma ShortWriteIff(rs: seq<Record>, r: Record, k: nat)
    requires AllWritable(rs) && Writable(r) && k <= |EncodeRecord(r)|
    ensures (exists more :: AllWritable(more) && Encoded(rs) + EncodeRecord(r)[..k] == Encoded(more)) <==> k == 0 || k == |EncodeRecord(r)|
  {
    var s := EncodeRecord(r)[..k];
    if k == 0 { assert Encoded(rs) + s == Encoded(rs); }
    if k == |EncodeRecord(r)| {
      EncodedAppend(rs, r);
      SliceAll(EncodeRecord(r));
      assert Encoded(rs) + s == Encoded(rs + [r]);
    }
    if more :| AllWritable(more) && Encoded(rs) + s == Encoded(more) && 0 < k < |EncodeRecord(r)| {
      ReplayComplete(more, true);
      ReplayAfter(rs, s, true);
      CutRecord(r, k, true);
      assert false;
    }
  }

  /** What follows a short write is read as the rest of its record: while that record
      still lacks more bytes than were written after it, replay drops them all, and a
      newer segment makes it refuse the log. */
  lemma ShortWriteHidesLater(rs: seq<Record>, r: Record, k: nat, more: seq<Record>, isLast: bool)
    requires AllWritable(rs) && Writable(r) && AllWritable(more)
    requires 4 <= k && k + |Encoded(more)| < |EncodeRecord(r)| && more != []
    ensures Replay(Encoded(rs) + (EncodeRecord(r)[..k] + Encoded(more)), isLast) == if isLast then Torn(rs, |Encoded(rs)|) else Replayed.Failed(rs)
  {
    var s := EncodeRecord(r)[..k] + Encoded(more);
    ReplayAfter(rs, s, isLast);
    PrefixLength(r, []);
    assert EncodeRecord(r) + [] == EncodeRecord(r);
    assert s[..4] == EncodeRecord(r)[..4];
    PrefixLength(more[0], []);
    assert |Encoded(more)| >= 4;
    assert rs + [] == rs;
  }

  /** A record cut after k bytes, then one acknowledged. */
  lemma CutThenAcked(r: Record, k: nat, x: Record, ps: seq<Piece>)
    requires Writable(r) && Writable(x) && 4 <= k && k + |EncodeRecord(x)| < |EncodeRecord(r)|
    requires ps == [Piece(r, k), Piece(x, |EncodeRecord(x)|)]
    ensures PiecesOk(ps) && WrittenIn(ps) == [x] && Replay(Bytes(ps), true) == Torn([], 0)
  {
    var none: seq<Piece> := [];
    var a, b := Piece(r, k), Piece(x, |EncodeRecord(x)|);
    PieceAppend(none, a, [a]);
    PieceAppend([a], b, ps);
    SliceAll(EncodeRecord(x));
    assert [x][1..] == [];
    assert Encoded([x]) == EncodeRecord(x) + Encoded([]);
    assert EncodeRecord(x) + [] == EncodeRecord(x);
    ShortWriteHidesLater([], r, k, [x], true);
    CutThenAckedBytes(r, k, x, ps);
  }

  lemma CutThenAckedBytes(r: Record, k: nat, x: Record, ps: seq<Piece>)
    requires Writable(r) && Writable(x) && 0 < k < |EncodeRecord(r)| && ps == [Piece(r, k), Piece(x, |EncodeRecord(x)|)] && PiecesOk(ps)
    ensures WrittenIn(ps) == [x] && Bytes(ps) == EncodeRecord(r)[..k] + EncodeRecord(x)
    ensures Bytes(ps) == Encoded([]) + (EncodeRecord(r)[..k] + EncodeRecord(x))
  {
    var p := ps[..1];
    assert p == [Piece(r, k)] && p[..0] == [];
    SliceAll(EncodeRecord(x));
    assert Bytes(p) == EncodeRecord(r)[..k] && WrittenIn(p) == [];
  }

  /** The input: an acknowledged record that replay truncates away. */
  lemma AckedRecordIsTruncated()
    ensures exists ps: seq<Piece> :: PiecesOk(ps) && WrittenIn(ps) != [] && Replay(Bytes(ps), true) == Torn([], 0)
  {
    var ten: seq<Byte> := [0, 0, 0, 0, 0, 0, 0, 0, 0, 0];
    var l := LabelPair(ten, ten);
    var r, x := Record([l], 0, 0, 1), Record([], 0, 0, 2);
    RecordSizes(l, r, x);
    CutThenAcked(r, 5, x, [Piece(r, 5), Piece(x, |EncodeRecord(x)|)]);
  }

  lemma RecordSizes(l: LabelPair, r: Record, x: Record)
    requires |l.name| == |l.value| == 10 && r == Record([l], 0, 0, 1) && x == Record([], 0, 0, 2)
    ensures Writable(r) && Writable(x) && |EncodeRecord(r)| == 53 && |EncodeRecord(x)| == 30
  {
    assert |LabelBytes(l)| == 23;
    assert [l][1..] == [];
    assert LabelsBytes([l]) == LabelBytes(l) + LabelsBytes([]);
  }

  /** With no short write in it, the directory is one of whole records, which replay
      delivers. */
  lemma IntactIsComplete(files: Dir, log: Pieces)
    requires Laid(files, log) && forall i :: i in log ==> LaidAt(files, log, i) && Intact(log[i])
    ensures Complete(files, map i | i in log :: WrittenIn(log[i]))
  {
    forall i | i in log ensures AllWritable(WrittenIn(log[i])) && files[i] == Encoded(WrittenIn(log[i])) { IntactIsEncoded(log[i]); }
  }

  method MaxIndex(dir: Dir) returns (maxIdx: nat)
    ensures (forall i :: i in dir ==> i <= maxIdx) && (maxIdx == 0 || maxIdx in dir)
  {
    maxIdx := 0;
    var todo := dir.Keys;
    while todo != {}
      invariant todo <= dir.Keys
      invariant forall i :: i in dir && i !in todo ==> i <= maxIdx
      invariant maxIdx == 0 || maxIdx in dir
      decreases todo
    {
      var i :| i in todo;
      if i > maxIdx { maxIdx := i; }
      todo := todo - {i};
    }
  }

  predicate Int64Fields(r: Record) { Writable(r.(labels := [])) }

  method ValidateLabels(r: Record) returns (ok: bool)
    requires Int64Fields(r)
    ensures ok <==> Writable(r)
  {
    if |r.labels| > 255 { return false; }
    var i := 0;
    while i < |r.labels|
      invariant 0 <= i <= |r.labels| && forall k :: 0 <= k < i ==> LabelFits(r.labels[k])
    {
      if |r.labels[i].name| > 255 || |r.labels[i].value| > 65535 { return false; }
      i := i + 1;
    }
    ok := true;
  }

  // ---- replay of a directory ----

  function Above(files: Dir, after: nat): set<nat> { set i | i in files && i > after }

  method Least(s: set<nat>) returns (m: nat)
    requires s != {}
    ensures m in s && forall i :: i in s ==> m <= i
  {
    m :| m in s;
    var todo := s - {m};
    while todo != {}
      invariant todo <= s && m in s && forall i :: i in s && i !in todo ==> m <= i
      decreases todo
    {
      var i :| i in todo;
      if i < m { m := i; }
      todo := todo - {i};
    }
  }

  /** The records of the segments numbered a to b, in order. */
  function InOrder(log: Log, a: nat, b: nat): seq<Record>
    decreases b
  {
    if b < a then []
    else (if b == 0 then [] else InOrder(log, a, b - 1)) + (if b in log then log[b] else [])
  }

  lemma {:induction false} SkipGap(log: Log, a: nat, m: nat, b: nat)
    requires a <= m <= b + 1 && forall i :: m <= i <= b ==> i !in log
    ensures InOrder(log, a, b) == (if m == 0 then [] else InOrder(log, a, m - 1))
    decreases b
  {
    if m <= b {
      if b > 0 && m <= b - 1 + 1 { SkipGap(log, a, m, b - 1); }
    }
  }

  datatype Outcome = Ok(records: seq<Record>) | Failed(segment: nat)

  /** ReplayFromGen over a directory whose last segment was cut at byte k: it succeeds
      exactly when the cut is not right after a length prefix (or the checkpoint covers
      the segment); it delivers, in order, every record above the checkpoint that lies
      wholly before the cut; and it leaves every segment complete. */
  method ReplayFromGen(dir: Dir, after: nat, ghost log: Log, ghost last: nat, ghost k: nat) returns (r: Outcome, files: Dir)
    requires CutAt(dir, log, last, k)
    ensures r.Failed? <==> after < last && k == |Encoded(log[last][..Whole(log[last], k)])| + 4
    ensures r.Ok? && after < last ==>
      r.records == InOrder(Kept(log, last, k), after + 1, last) && Complete(files, Kept(log, last, k))
    ensures after >= last ==> r == Ok([]) && files == dir
  {
    var todo := Above(dir, after);
    files := dir;
    var records: seq<Record> := [];
    ghost var done := after;
    while todo != {}
      invariant todo == Above(dir, done)
      invariant Replaying(dir, log, last, k, after, done, records, files)
      decreases todo
    {
      var i := Least(todo);
      LeastLeft(dir, log, last, k, done, i, todo);
      var one, repaired := ReplaySegment(files[i], todo == {i});
      ReplayedOne(dir, log, last, k, after, done, records, files, i);
      if one.Failed? { return Outcome.Failed(i), files; }
      records := records + one.records;
      files := files[i := repaired];
      todo := todo - {i};
      done := i;
    }
    r := Ok(records);
    Finished(dir, log, last, k, after, done, records, files);
  }

  /** Segments after + 1 to done are replayed and, if need be, repaired. */
  ghost predicate Replaying(dir: Dir, log: Log, last: nat, k: nat, after: nat, done: nat, records: seq<Record>, files: Dir) {
    && CutAt(dir, log, last, k) && after <= done && (done == after || done <= last) && files.Keys == dir.Keys
    && records == InOrder(Kept(log, last, k), after + 1, done)
    && (forall i :: i in dir && i != last ==> files[i] == dir[i])
    && (if after < last && done == last then !Replay(dir[last], true).Failed? && files[last] == Encoded(Kept(log, last, k)[last])
        else files[last] == dir[last])
  }

  /** The log without what the cut destroyed. */
  ghost function Kept(log: Log, last: nat, k: nat): Log
    requires last in log && AllWritable(log[last])
  {
    log[last := log[last][..Whole(log[last], k)]]
  }

  lemma ReplayedOne(dir: Dir, log: Log, last: nat, k: nat, after: nat, done: nat, records: seq<Record>, files: Dir, i: nat)
    requires Replaying(dir, log, last, k, after, done, records, files)
    requires i in dir && done < i <= last && forall j :: done < j < i ==> j !in dir
    ensures var one := Replay(files[i], i == last);
      if one.Failed? then after < last && k == |Encoded(log[last][..Whole(log[last], k)])| + 4
      else Replaying(dir, log, last, k, after, i, records + one.records, files[i := Repaired(files[i], i == last)])
  {
    assert files[i] == dir[i];
    if i < last {
      ReplayedWhole(dir, log, last, k, after, done, records, files, i);
    } else {
      SegmentResult(dir, log, last, k, i);
      if !Replay(dir[i], true).Failed? { ReplayedLast(dir, log, last, k, after, done, records, files); }
    }
  }

  lemma ReplayedWhole(dir: Dir, log: Log, last: nat, k: nat, after: nat, done: nat, records: seq<Record>, files: Dir, i: nat)
    requires Replaying(dir, log, last, k, after, done, records, files)
    requires i in dir && done < i < last && forall j :: done < j < i ==> j !in dir
    ensures Replay(files[i], false) == Clean(log[i])
    ensures Replaying(dir, log, last, k, after, i, records + log[i], files[i := Repaired(files[i], false)])
  {
    SegmentResult(dir, log, last, k, i);
    var kept := Kept(log, last, k);
    assert kept[i] == log[i];
    Advance(kept, after + 1, done, i);
    assert files[i := Repaired(files[i], false)] == files;
  }

  lemma ReplayedLast(dir: Dir, log: Log, last: nat, k: nat, after: nat, done: nat, records: seq<Record>, files: Dir)
    requires Replaying(dir, log, last, k, after, done, records, files)
    requires done < last && (forall j :: done < j < last ==> j !in dir) && !Replay(dir[last], true).Failed?
    ensures Replaying(dir, log, last, k, after, last, records + Replay(files[last], true).records, files[last := Repaired(files[last], true)])
  {
    var kept := Kept(log, last, k);
    var one, repaired := Replay(files[last], true).records, Repaired(files[last], true);
    LastSegment(dir[last], dir, log, last, k, one, repaired);
    Advance(kept, after + 1, done, last);
    LastRepaired(dir, log, last, k, after, done, records, files, records + one, repaired);
  }

  lemma LastSegment(file: seq<Byte>, dir: Dir, log: Log, last: nat, k: nat, one: seq<Record>, repaired: seq<Byte>)
    requires CutAt(dir, log, last, k) && file == dir[last] && !Replay(file, true).Failed?
    requires one == Replay(file, true).records && repaired == Repaired(file, true)
    ensures one == Kept(log, last, k)[last] && repaired == Encoded(Kept(log, last, k)[last])
  {
    SegmentResult(dir, log, last, k, last);
  }

  lemma LastRepaired(dir: Dir, log: Log, last: nat, k: nat, after: nat, done: nat, records: seq<Record>, files: Dir, records': seq<Record>, repaired: seq<Byte>)
    requires Replaying(dir, log, last, k, after, done, records, files) && done < last && !Replay(dir[last], true).Failed?
    requires repaired == Encoded(Kept(log, last, k)[last]) && records' == InOrder(Kept(log, last, k), after + 1, last)
    ensures Replaying(dir, log, last, k, after, last, records', files[last := repaired])
  {
  }

  /** The least segment left to replay. */
  lemma LeastLeft(dir: Dir, log: Log, last: nat, k: nat, done: nat, i: nat, todo: set<nat>)
    requires CutAt(dir, log, last, k) && todo == Above(dir, done) && i in todo && forall j :: j in todo ==> i <= j
    ensures todo == {i} <==> i == last
    ensures i in dir && done < i <= last && todo - {i} == Above(dir, i)
    ensures forall j :: done < j < i ==> j !in dir
  {
    assert last in todo;
    forall j | done < j < i ensures j !in dir { assert j in dir ==> j in todo; }
    if i == last {
      forall j | j in todo ensures j == i { assert j <= last; }
    }
  }

  /** One segment's outcome: complete ones give their records, the cut one what lies
      before the cut. */
  lemma SegmentResult(dir: Dir, log: Log, last: nat, k: nat, i: nat)
    requires CutAt(dir, log, last, k) && i in dir
    ensures i < last ==> Replay(dir[i], false) == Clean(log[i]) && Repaired(dir[i], false) == dir[i]
    ensures i == last && !Replay(dir[i], true).Failed? ==>
      Replay(dir[i], true).records == log[i][..Whole(log[i], k)] && Repaired(dir[i], true) == Encoded(log[i][..Whole(log[i], k)])
    ensures i == last ==> (Replay(dir[i], true).Failed? <==> k == |Encoded(log[i][..Whole(log[i], k)])| + 4)
  {
    if i < last {
      ReplayComplete(log[i], false);
    } else if i == last {
      CutReplay(log[i], k, true);
      TornTailAcceptedIff(log[i], k);
      if !Replay(dir[i], true).Failed? { RepairedReplaysAsNonLast(log[i], k); }
    }
  }

  lemma Advance(log: Log, a: nat, done: nat, i: nat)
    requires a <= done + 1 && done < i && i in log && forall j :: done < j < i ==> j !in log
    ensures InOrder(log, a, i) == InOrder(log, a, done) + log[i]
  {
    SkipGap(log, a, done + 1, i - 1);
  }

  lemma Finished(dir: Dir, log: Log, last: nat, k: nat, after: nat, done: nat, records: seq<Record>, files: Dir)
    requires Replaying(dir, log, last, k, after, done, records, files) && Above(dir, done) == {}
    ensures after < last ==> done == last && records == InOrder(Kept(log, last, k), after + 1, last)
    ensures after < last ==> k != |Encoded(log[last][..Whole(log[last], k)])| + 4 && Complete(files, Kept(log, last, k))
    ensures after >= last ==> records == [] && files == dir
  {
    assert last !in Above(dir, done);
    if after < last {
      TornTailAcceptedIff(log[last], k);
    } else {
      assert done == after;
    }
  }
}
