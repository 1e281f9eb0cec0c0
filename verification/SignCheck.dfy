/** The signature check of the SRG module: a run-length scan over a byte table, and the bit-by-bit definition it stands
    for.  Bits are taken low bit first, byte after byte. */
module SignCheck {
  type Byte = n: int | 0 <= n < 256

  function Max(a: int, b: int): int {
    if a < b then b else a
  }

  // ---- bit by bit --------------------------------------------------------------------------------

  function BitsOf(n: Byte): (bits: seq<bool>)
    ensures |bits| == 8
  {
    [n % 2 == 1, n / 2 % 2 == 1, n / 4 % 2 == 1, n / 8 % 2 == 1,
     n / 16 % 2 == 1, n / 32 % 2 == 1, n / 64 % 2 == 1, n / 128 % 2 == 1]
  }

  function BufferBits(buf: seq<Byte>): (bits: seq<bool>)
    ensures |bits| == 8 * |buf|
  {
    if buf == [] then [] else BufferBits(buf[..|buf| - 1]) + BitsOf(buf[|buf| - 1])
  }

  /** How many of the first `n` bits are set. */
  function Ones(bits: seq<bool>, n: nat): nat
    requires n <= |bits|
  {
    if n == 0 then 0 else Ones(bits, n - 1) + if bits[n - 1] then 1 else 0
  }

  /** The length of the run of `v` that ends right before position `n`. */
  function RunDown(bits: seq<bool>, n: nat, v: bool): (r: nat)
    requires n <= |bits|
    ensures r <= n
  {
    if n == 0 || bits[n - 1] != v then 0 else RunDown(bits, n - 1, v) + 1
  }

  /** The length of the run of `v` that starts at position `n`. */
  function RunUp(bits: seq<bool>, n: nat, v: bool): (r: nat)
    requires n <= |bits|
    ensures r <= |bits| - n
    decreases |bits| - n
  {
    if n == |bits| || bits[n] != v then 0 else RunUp(bits, n + 1, v) + 1
  }

  /** The longest run of `v` among the first `n` bits. */
  function Longest(bits: seq<bool>, n: nat, v: bool): (r: nat)
    requires n <= |bits|
  {
    if n == 0 then 0 else Max(Longest(bits, n - 1, v), RunDown(bits, n, v))
  }

  ghost predicate Stretch(bits: seq<bool>, i: nat, j: nat, v: bool) {
    i <= j <= |bits| && forall k :: i <= k < j ==> bits[k] == v
  }

  /** `Longest` is the longest run: some stretch of equal bits is that long, and none is longer. */
  lemma {:induction false} LongestIsLongest(bits: seq<bool>, n: nat, v: bool)
    requires n <= |bits|
    ensures exists j :: 0 <= j <= n && RunDown(bits, j, v) == Longest(bits, n, v)
    ensures forall i: nat, j: nat :: j <= n && Stretch(bits, i, j, v) ==> j - i <= Longest(bits, n, v)
  {
    if n == 0 {
      assert RunDown(bits, 0, v) == 0;
    } else {
      LongestIsLongest(bits, n - 1, v);
      if Longest(bits, n, v) == RunDown(bits, n, v) {
      } else {
        var j :| 0 <= j <= n - 1 && RunDown(bits, j, v) == Longest(bits, n - 1, v);
        assert RunDown(bits, j, v) == Longest(bits, n, v);
      }
      forall i: nat, j: nat | j <= n && Stretch(bits, i, j, v) ensures j - i <= Longest(bits, n, v) {
        if j == n {
          StretchWithinRun(bits, i, n, v);
        }
      }
    }
  }

  lemma {:induction false} StretchWithinRun(bits: seq<bool>, i: nat, j: nat, v: bool)
    requires Stretch(bits, i, j, v)
    ensures j - i <= RunDown(bits, j, v)
  {
    if i < j {
      StretchWithinRun(bits, i, j - 1, v);
    }
  }

  // ---- the byte table -------------------------------------------------------------------------------

  /** `in0`/`in1` and `out0`/`out1` are the runs at the low and the high end; `changes` unless all bits are equal. */
  datatype Entry = Entry(ones: nat, in0: nat, in1: nat, out0: nat, out1: nat, changes: bool)

  function EntryOf(bits: seq<bool>): Entry
    requires |bits| == 8
  {
    Entry(Ones(bits, 8), RunUp(bits, 0, false), RunUp(bits, 0, true), RunDown(bits, 8, false), RunDown(bits, 8, true),
          RunDown(bits, 8, bits[7]) < 8)
  }

  lemma RunDownUnrolled(b: seq<bool>, v: bool)
    requires |b| == 8
    ensures RunDown(b, 8, v) ==
              if b[7] != v then 0 else if b[6] != v then 1 else if b[5] != v then 2 else if b[4] != v then 3
              else if b[3] != v then 4 else if b[2] != v then 5 else if b[1] != v then 6 else if b[0] != v then 7 else 8
  {
    assert RunDown(b, 1, v) == if b[0] == v then 1 else 0;
    assert RunDown(b, 3, v) == if b[2] != v then 0 else RunDown(b, 2, v) + 1;
    assert RunDown(b, 5, v) == if b[4] != v then 0 else RunDown(b, 4, v) + 1;
    assert RunDown(b, 7, v) == if b[6] != v then 0 else RunDown(b, 6, v) + 1;
  }

  lemma RunUpUnrolled(b: seq<bool>, v: bool)
    requires |b| == 8
    ensures RunUp(b, 0, v) ==
              if b[0] != v then 0 else if b[1] != v then 1 else if b[2] != v then 2 else if b[3] != v then 3
              else if b[4] != v then 4 else if b[5] != v then 5 else if b[6] != v then 6 else if b[7] != v then 7 else 8
  {
    assert RunUp(b, 7, v) == if b[7] == v then 1 else 0;
    assert RunUp(b, 5, v) == if b[5] != v then 0 else RunUp(b, 6, v) + 1;
    assert RunUp(b, 3, v) == if b[3] != v then 0 else RunUp(b, 4, v) + 1;
    assert RunUp(b, 1, v) == if b[1] != v then 0 else RunUp(b, 2, v) + 1;
  }

  lemma OnesUnrolled(b: seq<bool>)
    requires |b| == 8
    ensures Ones(b, 8) ==
              (if b[7] then 1 else 0) + (if b[6] then 1 else 0) + (if b[5] then 1 else 0) + (if b[4] then 1 else 0)
              + (if b[3] then 1 else 0) + (if b[2] then 1 else 0) + (if b[1] then 1 else 0) + (if b[0] then 1 else 0)
  {
    assert Ones(b, 1) == if b[0] then 1 else 0;
    assert Ones(b, 3) == Ones(b, 2) + if b[2] then 1 else 0;
    assert Ones(b, 5) == Ones(b, 4) + if b[4] then 1 else 0;
    assert Ones(b, 7) == Ones(b, 6) + if b[6] then 1 else 0;
  }

  method PopCount(b: seq<bool>) returns (ones: nat)
    requires |b| == 8
    ensures ones == Ones(b, 8)
  {
    ones := 0;
    if b[7] { ones := ones + 1; }
    if b[6] { ones := ones + 1; }
    if b[5] { ones := ones + 1; }
    if b[4] { ones := ones + 1; }
    if b[3] { ones := ones + 1; }
    if b[2] { ones := ones + 1; }
    if b[1] { ones := ones + 1; }
    if b[0] { ones := ones + 1; }
    OnesUnrolled(b);
  }

  /** The high end of a byte, tested bit by bit from bit 7 down. */
  method OutRuns(b: seq<bool>) returns (out0: nat, out1: nat, changed: bool)
    requires |b| == 8
    ensures out0 == RunDown(b, 8, false) && out1 == RunDown(b, 8, true) && (changed <==> RunDown(b, 8, b[7]) < 8)
  {
    out0, out1, changed := 0, 0, true;
    RunDownUnrolled(b, false);
    RunDownUnrolled(b, true);
    if b[7] {
      out1 := out1 + 1;
      if b[6] { out1 := out1 + 1; } else { return; }
      if b[5] { out1 := out1 + 1; } else { return; }
      if b[4] { out1 := out1 + 1; } else { return; }
      if b[3] { out1 := out1 + 1; } else { return; }
      if b[2] { out1 := out1 + 1; } else { return; }
      if b[1] { out1 := out1 + 1; } else { return; }
      if b[0] { out1 := out1 + 1; } else { return; }
      changed := false;
    } else {
      out0 := out0 + 1;
      if !b[6] { out0 := out0 + 1; } else { return; }
      if !b[5] { out0 := out0 + 1; } else { return; }
      if !b[4] { out0 := out0 + 1; } else { return; }
      if !b[3] { out0 := out0 + 1; } else { return; }
      if !b[2] { out0 := out0 + 1; } else { return; }
      if !b[1] { out0 := out0 + 1; } else { return; }
      if !b[0] { out0 := out0 + 1; } else { return; }
      changed := false;
    }
  }

  /** The low end, from bit 0 up. */
  method InRuns(b: seq<bool>) returns (in0: nat, in1: nat)
    requires |b| == 8
    ensures in0 == RunUp(b, 0, false) && in1 == RunUp(b, 0, true)
  {
    in0, in1 := 0, 0;
    RunUpUnrolled(b, false);
    RunUpUnrolled(b, true);
    if b[0] {
      in1 := in1 + 1;
      if b[1] { in1 := in1 + 1; } else { return; }
      if b[2] { in1 := in1 + 1; } else { return; }
      if b[3] { in1 := in1 + 1; } else { return; }
      if b[4] { in1 := in1 + 1; } else { return; }
      if b[5] { in1 := in1 + 1; } else { return; }
      if b[6] { in1 := in1 + 1; } else { return; }
      if b[7] { in1 := in1 + 1; } else { return; }
    } else {
      in0 := in0 + 1;
      if !b[1] { in0 := in0 + 1; } else { return; }
      if !b[2] { in0 := in0 + 1; } else { return; }
      if !b[3] { in0 := in0 + 1; } else { return; }
      if !b[4] { in0 := in0 + 1; } else { return; }
      if !b[5] { in0 := in0 + 1; } else { return; }
      if !b[6] { in0 := in0 + 1; } else { return; }
      if !b[7] { in0 := in0 + 1; } else { return; }
    }
  }

  ghost predicate IsTable(table: array<Entry>)
    reads table
  {
    table.Length == 256 && forall n: Byte :: table[n] == EntryOf(BitsOf(n))
  }

  method InitBitCountLookupTables(table: array<Entry>)
    requires table.Length == 256
    modifies table
    ensures IsTable(table)
  {
    var n := 0;
    while n < 256
      invariant 0 <= n <= 256
      invariant forall m: Byte :: m < n ==> table[m] == EntryOf(BitsOf(m))
    {
      var b := BitsOf(n);
      var ones := PopCount(b);
      var out0, out1, changed := OutRuns(b);
      var in0, in1;
      if !changed {
        in0, in1 := out0, out1;
        UniformRuns(b);
      } else {
        in0, in1 := InRuns(b);
      }
      table[n] := Entry(ones, in0, in1, out0, out1, changed);
      n := n + 1;
    }
  }

  lemma UniformRuns(b: seq<bool>)
    requires |b| == 8 && RunDown(b, 8, b[7]) == 8
    ensures RunUp(b, 0, false) == RunDown(b, 8, false) && RunUp(b, 0, true) == RunDown(b, 8, true)
  {
    RunDownUnrolled(b, b[7]);
    RunDownUnrolled(b, !b[7]);
    RunUpUnrolled(b, false);
    RunUpUnrolled(b, true);
  }

  // ---- the scan ------------------------------------------------------------------------------------------

  datatype Scan = Scan(is0: bool, is1: bool, long0: nat, long1: nat, longest0: nat, longest1: nat, ones: nat)

  /** One byte of the scan. */
  function Step(s: Scan, e: Entry): Scan {
    var ones := s.ones + e.ones;
    var long0 := s.long0 + if s.is0 then e.in0 else 0;
    var long1 := s.long1 + if s.is1 then e.in1 else 0;
    if e.changes then
      Scan(e.out0 != 0, e.out0 == 0, e.out0, e.out1, Max(s.longest0, long0), Max(s.longest1, long1), ones)
    else if !s.is0 && e.in0 != 0 then
      Scan(true, false, e.out0, e.out1, s.longest0, Max(s.longest1, long1), ones)
    else if !s.is1 && e.in1 != 0 then
      Scan(false, true, e.out0, e.out1, Max(s.longest0, long0), s.longest1, ones)
    else
      Scan(s.is0, s.is1, long0, long1, s.longest0, s.longest1, ones)
  }

  function ScanTo(buf: seq<Byte>, n: nat): Scan
    requires buf != [] && n <= |buf|
  {
    if n == 0 then
      var e := EntryOf(BitsOf(buf[0]));
      Scan(e.in0 != 0, e.in1 != 0, 0, 0, 0, 0, 0)
    else Step(ScanTo(buf, n - 1), EntryOf(BitsOf(buf[n - 1])))
  }

  lemma ScanNext(buf: seq<Byte>, n: nat)
    requires n < |buf|
    ensures ScanTo(buf, n + 1) == Step(ScanTo(buf, n), EntryOf(BitsOf(buf[n])))
  {
  }

  datatype Runs = Runs(zeros: nat, ones: nat, pop: nat)

  /** What the table scan makes of a buffer. */
  function TableRuns(buf: seq<Byte>): Runs
    requires buf != []
  {
    var s := ScanTo(buf, |buf|);
    Runs(Max(s.longest0, s.long0), Max(s.longest1, s.long1), s.ones)
  }

  /** What there is to be found, bit by bit. */
  function TrueRuns(buf: seq<Byte>): Runs {
    var bits := BufferBits(buf);
    Runs(Longest(bits, |bits|, false), Longest(bits, |bits|, true), Ones(bits, |bits|))
  }

  datatype Signature = Signature(classifier: int, extent: int)

  const OVERBAL := 167 - 128

  /** The decision: 0 means the buffer does not pass. */
  function Classify(runs: Runs, del1: int, del2: int): Signature {
    if runs.pop > 128 + OVERBAL + del2 then Signature(1, runs.pop - 128 - OVERBAL - del2)
    else if runs.pop < 128 - OVERBAL - del2 then Signature(2, (128 - OVERBAL - del2) - runs.pop)
    else if runs.zeros > 29 + del1 then Signature(3, runs.zeros - (29 + del1))
    else if runs.ones > 29 + del1 then Signature(4, runs.ones - (29 + del1))
    else Signature(0, 0)
  }

  method SignCheck(table: array<Entry>, buf: seq<Byte>, del1: int, del2: int) returns (rval: int, s: Signature)
    requires IsTable(table) && |buf| == 32
    ensures s == Classify(TableRuns(buf), del1, del2) && rval == s.classifier
    ensures Describes(s, BufferBits(buf), del1, del2)
  {
    hide EntryOf, BitsOf, Describes;
    SignatureMeans(buf, del1, del2);
    assert ScanTo(buf, 0) == Scan(table[buf[0]].in0 != 0, table[buf[0]].in1 != 0, 0, 0, 0, 0, 0);
    hide ScanTo;
    var is0, is1 := table[buf[0]].in0 != 0, table[buf[0]].in1 != 0;
    var long0: nat, long1: nat, longest0: nat, longest1: nat, ones: nat := 0, 0, 0, 0, 0;
    var n: nat := 0;
    while n < 32
      invariant 0 <= n <= 32
      invariant ScanTo(buf, n) == Scan(is0, is1, long0, long1, longest0, longest1, ones)
    {
      ScanNext(buf, n);
      var e := table[buf[n]];
      ones := ones + e.ones;
      if is0 && e.in0 != 0 { long0 := long0 + e.in0; }
      if is1 && e.in1 != 0 { long1 := long1 + e.in1; }
      if e.changes {
        if long0 > longest0 { longest0 := long0; }
        if long1 > longest1 { longest1 := long1; }
        long0 := e.out0;
        if long0 != 0 {
          is0, is1 := true, false;
        } else {
          is1, is0 := true, false;
        }
        long1 := e.out1;
      } else {
        if !is0 && e.in0 != 0 {
          if long1 > longest1 { longest1 := long1; }
          long0, long1 := e.out0, e.out1;
          is0, is1 := true, false;
        } else if !is1 && e.in1 != 0 {
          if long0 > longest0 { longest0 := long0; }
          long0, long1 := e.out0, e.out1;
          is0, is1 := false, true;
        }
      }
      n := n + 1;
    }
    if long0 > longest0 { longest0 := long0; }
    if long1 > longest1 { longest1 := long1; }
    if longest0 > 29 + del1 || longest1 > 29 + del1 || ones > 128 + OVERBAL + del2 || ones < 128 - OVERBAL - del2 {
      if ones > 128 + OVERBAL + del2 {
        rval := 1;
        s := Signature(rval, ones - 128 - OVERBAL - del2);
      } else if ones < 128 - OVERBAL - del2 {
        rval := 2;
        s := Signature(rval, (128 - OVERBAL - del2) - ones);
      } else if longest0 > 29 + del1 {
        rval := 3;
        s := Signature(rval, longest0 - (29 + del1));
      } else if longest1 > 29 + del1 {
        rval := 4;
        s := Signature(rval, longest1 - (29 + del1));
      } else {
        rval := 5;
        s := Signature(rval, 0);
      }
      return;
    }
    return 0, Signature(0, 0);
  }

  // ---- the scan against the definition -----------------------------------------------------------------------

  /** `bits` ends, at position `8 * n`, in the bits of a buffer's first `n` bytes. */
  lemma {:induction false} BufferBitsAt(buf: seq<Byte>, n: nat)
    requires n < |buf|
    ensures BufferBits(buf)[8 * n..8 * n + 8] == BitsOf(buf[n])
    ensures BufferBits(buf)[..8 * n] == BufferBits(buf[..n])
  {
    var init := buf[..|buf| - 1];
    if n < |init| {
      BufferBitsAt(init, n);
      assert init[..n] == buf[..n];
    }
  }

  lemma {:induction false} RunDownLocal(bits: seq<bool>, p: nat, j: nat, v: bool)
    requires p + j <= |bits|
    ensures var b := bits[p..p + j];
            RunDown(bits, p + j, v) == if RunDown(b, j, v) == j then RunDown(bits, p, v) + j else RunDown(b, j, v)
    decreases j
  {
    var b := bits[p..p + j];
    if j > 0 && b[j - 1] == v {
      RunDownLocal(bits, p, j - 1, v);
      var b' := bits[p..p + j - 1];
      RunDownPrefix(b, b', j - 1, v);
    }
  }

  lemma {:induction false} RunDownPrefix(a: seq<bool>, b: seq<bool>, n: nat, v: bool)
    requires n <= |a| && n <= |b| && a[..n] == b[..n]
    ensures RunDown(a, n, v) == RunDown(b, n, v)
  {
    if n > 0 {
      assert a[n - 1] == a[..n][n - 1] && b[n - 1] == b[..n][n - 1];
      assert a[..n - 1] == a[..n][..n - 1] && b[..n - 1] == b[..n][..n - 1];
      RunDownPrefix(a, b, n - 1, v);
    }
  }

  lemma {:induction false} OnesLocal(bits: seq<bool>, p: nat, j: nat)
    requires p + j <= |bits|
    ensures Ones(bits, p + j) == Ones(bits, p) + Ones(bits[p..p + j], j)
    decreases j
  {
    if j > 0 {
      OnesLocal(bits, p, j - 1);
      OnesPrefix(bits[p..p + j], bits[p..p + j - 1], j - 1);
    }
  }

  lemma {:induction false} OnesPrefix(a: seq<bool>, b: seq<bool>, n: nat)
    requires n <= |a| && n <= |b| && a[..n] == b[..n]
    ensures Ones(a, n) == Ones(b, n)
  {
    if n > 0 {
      assert a[n - 1] == a[..n][n - 1] && b[n - 1] == b[..n][n - 1];
      assert a[..n - 1] == a[..n][..n - 1] && b[..n - 1] == b[..n][..n - 1];
      OnesPrefix(a, b, n - 1);
    }
  }

  lemma {:induction false} PrefixRun(b: seq<bool>, j: nat, v: bool)
    requires j <= |b|
    ensures RunDown(b, j, v) == j <==> j <= RunUp(b, 0, v)
  {
    RunUpIsStretch(b, 0, v);
    if j <= RunUp(b, 0, v) {
      StretchWithinRun(b, 0, j, v);
    }
    if RunDown(b, j, v) == j {
      RunIsStretch(b, j, v);
      StretchWithinRunUp(b, 0, j, v);
    }
  }

  lemma {:induction false} RunIsStretch(b: seq<bool>, n: nat, v: bool)
    requires n <= |b|
    ensures Stretch(b, n - RunDown(b, n, v), n, v)
  {
    if n > 0 && b[n - 1] == v {
      RunIsStretch(b, n - 1, v);
    }
  }

  lemma {:induction false} RunUpIsStretch(b: seq<bool>, n: nat, v: bool)
    requires n <= |b|
    ensures Stretch(b, n, n + RunUp(b, n, v), v)
    decreases |b| - n
  {
    if n < |b| && b[n] == v {
      RunUpIsStretch(b, n + 1, v);
    }
  }

  lemma {:induction false} StretchWithinRunUp(b: seq<bool>, i: nat, j: nat, v: bool)
    requires Stretch(b, i, j, v)
    ensures j - i <= RunUp(b, i, v)
    decreases j - i
  {
    if i < j {
      StretchWithinRunUp(b, i + 1, j, v);
    }
  }

  /** The longest run over the next `j` bits of a byte: only the run through its low end can be 8 or more. */
  lemma {:induction false} LongestWithin(bits: seq<bool>, p: nat, j: nat, v: bool)
    requires p + 8 <= |bits| && j <= 8
    ensures var b := bits[p..p + 8]; var through := RunDown(bits, p, v) + RunUp(b, 0, v);
            && Longest(bits, p + j, v) <= Max(Max(Longest(bits, p, v), through), 7)
            && Longest(bits, p + j, v) >= Longest(bits, p, v)
            && (j >= RunUp(b, 0, v) ==> Longest(bits, p + j, v) >= through || RunUp(b, 0, v) == 0)
    decreases j
  {
    var b := bits[p..p + 8];
    if j > 0 {
      LongestWithin(bits, p, j - 1, v);
      RunDownLocal(bits, p, j, v);
      RunDownPrefix(bits[p..p + j], b, j, v);
      PrefixRun(b, j, v);
    }
  }

  lemma RunWithinLongest(bits: seq<bool>, n: nat, v: bool)
    requires n <= |bits|
    ensures RunDown(bits, n, v) <= Longest(bits, n, v)
  {
  }

  /** What a scan knows about runs of `v`. */
  function Is(s: Scan, v: bool): bool { if v then s.is1 else s.is0 }
  function Long(s: Scan, v: bool): nat { if v then s.long1 else s.long0 }
  function LongestSeen(s: Scan, v: bool): nat { if v then s.longest1 else s.longest0 }
  function In(e: Entry, v: bool): nat { if v then e.in1 else e.in0 }
  function Out(e: Entry, v: bool): nat { if v then e.out1 else e.out0 }

  /** The run now open is exact; the longest seen is never too long, and exact from 8 on. */
  ghost predicate Tracks(s: Scan, bits: seq<bool>, n: nat, v: bool)
    requires n <= |bits|
  {
    && Long(s, v) == RunDown(bits, n, v)
    && LongestSeen(s, v) <= Longest(bits, n, v)
    && (Longest(bits, n, v) >= 8 ==> Max(LongestSeen(s, v), Long(s, v)) == Longest(bits, n, v))
  }

  lemma EntryShape(b: seq<bool>, v: bool)
    requires |b| == 8
    ensures Shape(EntryOf(b), v, b[0] == v, b[7] == v)
    ensures In(EntryOf(b), v) == RunUp(b, 0, v) && Out(EntryOf(b), v) == RunDown(b, 8, v)
    ensures EntryOf(b).changes <==> RunDown(b, 8, v) < 8 && RunDown(b, 8, !v) < 8
  {
    RunDownUnrolled(b, v);
    RunDownUnrolled(b, b[7]);
    RunDownUnrolled(b, !v);
    RunUpUnrolled(b, v);
  }

  ghost predicate Shape(e: Entry, v: bool, starts: bool, ends: bool) {
    && (In(e, v) != 0 <==> starts) && (Out(e, v) != 0 <==> ends)
    && (!e.changes ==> In(e, v) == Out(e, v) == if starts then 8 else 0)
    && (e.changes ==> In(e, v) < 8 && Out(e, v) < 8)
  }

  lemma ShapeFacts(e: Entry, v: bool, starts: bool, ends: bool)
    requires Shape(e, v, starts, ends)
    ensures In(e, v) != 0 <==> starts
    ensures if e.changes then In(e, v) < 8 && Out(e, v) < 8 else In(e, v) == Out(e, v) == if starts then 8 else 0
  {
  }

  /** One step as seen by runs of `v`. */
  lemma StepView(s: Scan, e: Entry, v: bool, starts: bool, ends: bool)
    requires Shape(e, v, starts, ends) && Shape(e, !v, !starts, !ends) && s.is0 == !s.is1
    requires !Is(s, v) ==> Long(s, v) == 0
    ensures var t, counted := Step(s, e), Long(s, v) + if Is(s, v) then In(e, v) else 0;
            && Is(t, v) == ends
            && Long(t, v) == (if e.changes then Out(e, v) else if starts then Long(s, v) + 8 else 0)
            && LongestSeen(t, v)
               == (if e.changes || (Is(s, v) && !starts) then Max(LongestSeen(s, v), counted) else LongestSeen(s, v))
  {
  }

  lemma StepTracks(s: Scan, bits: seq<bool>, p: nat, v: bool)
    requires p + 8 <= |bits| && Tracks(s, bits, p, v)
    requires s.is0 == !s.is1 && (p > 0 ==> Is(s, v) == (bits[p - 1] == v)) && (p == 0 ==> Is(s, v) == (bits[0] == v))
    ensures Tracks(Step(s, EntryOf(bits[p..p + 8])), bits, p + 8, v)
    ensures Is(Step(s, EntryOf(bits[p..p + 8])), v) == (bits[p + 7] == v)
  {
    hide EntryOf, RunDown, RunUp, Longest, Ones, Step, Shape, In, Out;
    var b := bits[p..p + 8];
    var e := EntryOf(b);
    EntryShape(b, v);
    EntryShape(b, !v);
    ShapeFacts(e, v, b[0] == v, b[7] == v);
    assert b[7] == bits[p + 7] && b[0] == bits[p];
    NoRun(bits, p, v);
    StepView(s, e, v, b[0] == v, b[7] == v);
    LongestWithin(bits, p, 8, v);
    RunDownLocal(bits, p, 8, v);
    RunWithinLongest(bits, p, v);
    RunWithinLongest(bits, p + 8, v);
    var t := Step(s, e);
    StillTracks(Is(s, v), Long(s, v), LongestSeen(s, v), Longest(bits, p, v), In(e, v), Out(e, v), e.changes, b[0] == v,
                LongestSeen(t, v), Long(t, v), Longest(bits, p + 8, v));
  }

  lemma NoRun(bits: seq<bool>, n: nat, v: bool)
    requires n <= |bits|
    ensures n == 0 || bits[n - 1] != v ==> RunDown(bits, n, v) == 0
  {
  }

  /** The bookkeeping behind one step: `run` is the open run, `seen` the longest seen, `longest` the true one. */
  lemma StillTracks(isOpen: bool, run: nat, seen: nat, longest: nat, in_: nat, out: nat, changes: bool, starts: bool,
                    seen': nat, run': nat, longest': nat)
    requires seen <= longest && (longest >= 8 ==> Max(seen, run) == longest) && run <= longest
    requires !isOpen ==> run == 0
    requires in_ != 0 <==> starts
    requires if changes then in_ < 8 && out < 8 else in_ == out == if starts then 8 else 0
    requires run' == if changes then out else if starts then run + 8 else 0
    requires seen' == if changes || (isOpen && !starts) then Max(seen, run + if isOpen then in_ else 0) else seen
    requires longest' <= Max(Max(longest, run + in_), 7) && longest' >= longest && run' <= longest'
    requires in_ == 0 || longest' >= run + in_
    ensures seen' <= longest' && (longest' >= 8 ==> Max(seen', run') == longest')
  {
  }

  lemma StepFlags(s: Scan, n: Byte)
    requires s.is0 == !s.is1
    ensures var e := EntryOf(BitsOf(n));
            Step(s, e).is0 == !Step(s, e).is1 && Step(s, e).ones == s.ones + Ones(BitsOf(n), 8)
  {
    hide BitsOf;
  }

  /** The state of the scan after `n` bytes. */
  lemma {:induction false} ScanTracks(buf: seq<Byte>, n: nat)
    requires buf != [] && n <= |buf|
    ensures Scanned(buf, n, ScanTo(buf, n))
  {
    if n == 0 {
      ScanStarts(buf);
    } else {
      ScanTracks(buf, n - 1);
      ScanSteps(buf, n - 1);
    }
  }

  /** Everything known after `n` bytes. */
  ghost predicate Scanned(buf: seq<Byte>, n: nat, s: Scan)
    requires buf != [] && n <= |buf|
  {
    var bits := BufferBits(buf);
    && Tracks(s, bits, 8 * n, false) && Tracks(s, bits, 8 * n, true)
    && s.ones == Ones(bits, 8 * n) && s.is0 == !s.is1
    && s.is1 == (if n > 0 then bits[8 * n - 1] else bits[0])
  }

  lemma ScanStarts(buf: seq<Byte>)
    requires buf != []
    ensures Scanned(buf, 0, ScanTo(buf, 0))
  {
    hide BitsOf;
    BufferBitsAt(buf, 0);
    var b := BufferBits(buf)[0..8];
    EntryShape(b, false);
    EntryShape(b, true);
    assert b[0] == BufferBits(buf)[0];
  }

  lemma ScanSteps(buf: seq<Byte>, n: nat)
    requires n < |buf| && Scanned(buf, n, ScanTo(buf, n))
    ensures Scanned(buf, n + 1, ScanTo(buf, n + 1))
  {
    hide EntryOf, BitsOf, Tracks, Step, BufferBits;
    var bits, s, e := BufferBits(buf), ScanTo(buf, n), EntryOf(BitsOf(buf[n]));
    BufferBitsAt(buf, n);
    assert 8 * n + 8 <= |bits|;
    StepTracks(s, bits, 8 * n, false);
    StepTracks(s, bits, 8 * n, true);
    OnesLocal(bits, 8 * n, 8);
    StepFlags(s, buf[n]);
    assert ScanTo(buf, n + 1) == Step(s, e);
  }

  /** For every buffer: the population count is exact, no run is over-reported, and runs of 8 or more are exact. */
  lemma TableRunsAreTrue(buf: seq<Byte>)
    requires buf != []
    ensures var t, r := TableRuns(buf), TrueRuns(buf);
            && t.pop == r.pop
            && t.zeros <= r.zeros && (r.zeros >= 8 ==> t.zeros == r.zeros)
            && t.ones <= r.ones && (r.ones >= 8 ==> t.ones == r.ones)
            && Max(t.zeros, t.ones) >= 1
  {
    ScanTracks(buf, |buf|);
    var bits := BufferBits(buf);
    RunWithinLongest(bits, |bits|, false);
    RunWithinLongest(bits, |bits|, true);
    assert RunDown(bits, |bits|, bits[|bits| - 1]) >= 1;
  }

  /** So for `del1 >= -22` the check gives exactly the signature of the bit-by-bit definition. */
  lemma SignatureIsTrue(buf: seq<Byte>, del1: int, del2: int)
    requires buf != [] && del1 >= -22
    ensures Classify(TableRuns(buf), del1, del2) == Classify(TrueRuns(buf), del1, del2)
  {
    TableRunsAreTrue(buf);
  }

  // ---- what a signature says of the bits ---------------------------------------------------------------------------

  /** The number that binary digits stand for, low digit first. */
  function NumberOf(digits: seq<bool>): nat {
    if digits == [] then 0 else (if digits[0] then 1 else 0) + 2 * NumberOf(digits[1..])
  }

  function Binary(n: nat, k: nat): seq<bool> {
    if k == 0 then [] else [n % 2 == 1] + Binary(n / 2, k - 1)
  }

  function Power(k: nat): nat {
    if k == 0 then 1 else 2 * Power(k - 1)
  }

  lemma {:induction false} BinaryIsNumber(n: nat, k: nat)
    requires n < Power(k)
    ensures NumberOf(Binary(n, k)) == n
    decreases k
  {
    if k > 0 {
      BinaryIsNumber(n / 2, k - 1);
      assert Binary(n, k)[1..] == Binary(n / 2, k - 1);
    }
  }

  lemma Halves(n: nat)
    ensures n / 2 / 2 == n / 4 && n / 4 / 2 == n / 8 && n / 8 / 2 == n / 16 && n / 16 / 2 == n / 32
    ensures n / 32 / 2 == n / 64 && n / 64 / 2 == n / 128
  {
  }

  lemma NextDigit(n: nat, half: nat, k: nat)
    requires half == n / 2 && k > 0
    ensures Binary(n, k) == [n % 2 == 1] + Binary(half, k - 1)
  {
  }

  lemma FourDigits(n: nat, a: nat, b: nat, c: nat, d: nat, k: nat)
    requires a == n / 2 && b == a / 2 && c == b / 2 && d == c / 2 && k >= 4
    ensures Binary(n, k) == [n % 2 == 1, a % 2 == 1, b % 2 == 1, c % 2 == 1] + Binary(d, k - 4)
  {
    NextDigit(n, a, k);
    NextDigit(a, b, k - 1);
    NextDigit(b, c, k - 2);
    NextDigit(c, d, k - 3);
    hide Binary;
  }

  lemma EightDigits(n: Byte)
    ensures Binary(n, 8) == BitsOf(n)
  {
    Halves(n);
    FourDigits(n, n / 2, n / 4, n / 8, n / 16, 8);
    FourDigits(n / 16, n / 32, n / 64, n / 128, n / 128 / 2, 4);
    assert Binary(n / 128 / 2, 0) == [];
    hide Binary;
  }

  /** The bits of a byte, low bit first, are its binary digits. */
  lemma BitsAreBinary(n: Byte)
    ensures NumberOf(BitsOf(n)) == n
  {
    EightDigits(n);
    assert Power(4) == 16 && Power(8) == 256;
    BinaryIsNumber(n, 8);
  }

  /** The positions of set bits among the first `n`. */
  ghost function SetBits(bits: seq<bool>, n: nat): set<nat>
    requires n <= |bits|
  {
    set k: nat | k < n && bits[k]
  }

  lemma {:induction false} OnesAreSetBits(bits: seq<bool>, n: nat)
    requires n <= |bits|
    ensures Ones(bits, n) == |SetBits(bits, n)|
  {
    if n > 0 {
      OnesAreSetBits(bits, n - 1);
      if bits[n - 1] {
        assert SetBits(bits, n) == SetBits(bits, n - 1) + {n - 1};
      } else {
        assert SetBits(bits, n) == SetBits(bits, n - 1);
      }
    }
  }

  /** More than `limit` bits in a row are all `v`. */
  ghost predicate HasLonger(bits: seq<bool>, v: bool, limit: int) {
    exists i: nat, j: nat :: Stretch(bits, i, j, v) && j - i > limit
  }

  /** Exactly `length` is the most there are in a row. */
  ghost predicate LongestIs(bits: seq<bool>, v: bool, length: int) {
    && (exists i: nat, j: nat :: Stretch(bits, i, j, v) && j - i == length)
    && forall i: nat, j: nat :: Stretch(bits, i, j, v) ==> j - i <= length
  }

  lemma LongestRun(bits: seq<bool>, v: bool, limit: int)
    ensures LongestIs(bits, v, Longest(bits, |bits|, v))
    ensures HasLonger(bits, v, limit) <==> Longest(bits, |bits|, v) > limit
  {
    LongestIsLongest(bits, |bits|, v);
    var j :| 0 <= j <= |bits| && RunDown(bits, j, v) == Longest(bits, |bits|, v);
    RunIsStretch(bits, j, v);
    assert Stretch(bits, j - RunDown(bits, j, v), j, v);
  }

  /** The signature says: 1, too many set bits, 2, too few, and by how many; 3, none of these but zeros in a row,
      4, none of these but ones in a row, and by how many more than the limit.  Runs count from 8 on only. */
  ghost predicate Describes(s: Signature, bits: seq<bool>, del1: int, del2: int) {
    var pop := |SetBits(bits, |bits|)|;
    var many, few := pop > 167 + del2, pop < 89 - del2;
    var zeros, ones := HasLonger(bits, false, 29 + del1), HasLonger(bits, true, 29 + del1);
    && (s.classifier == 1 <==> many) && (many ==> s.extent == pop - (167 + del2))
    && (s.classifier == 2 <==> !many && few) && (s.classifier == 2 ==> s.extent == 89 - del2 - pop)
    && (s.classifier == 0 ==> s.extent == 0) && 0 <= s.classifier <= 4
    && (del1 >= -22 ==>
          && (s.classifier == 3 <==> !many && !few && zeros)
          && (s.classifier == 3 ==> LongestIs(bits, false, 29 + del1 + s.extent))
          && (s.classifier == 4 <==> !many && !few && !zeros && ones)
          && (s.classifier == 4 ==> LongestIs(bits, true, 29 + del1 + s.extent)))
  }

  lemma SignatureMeans(buf: seq<Byte>, del1: int, del2: int)
    requires buf != []
    ensures Describes(Classify(TableRuns(buf), del1, del2), BufferBits(buf), del1, del2)
  {
    var bits := BufferBits(buf);
    TableRunsAreTrue(buf);
    OnesAreSetBits(bits, |bits|);
    LongestRun(bits, false, 29 + del1);
    LongestRun(bits, true, 29 + del1);
    hide TableRuns, BufferBits, Ones, Longest, HasLonger, LongestIs, SetBits;
  }

  predicate Passes(runs: Runs, del1: int, del2: int) {
    Classify(runs, del1, del2).classifier != 0
  }

  // ---- exactly when the decision is that of the definition ----------------------------------------------------------

  ghost predicate AlwaysAgrees(del1: int, del2: int) {
    forall buf: seq<Byte> :: |buf| == 32 ==> (Passes(TableRuns(buf), del1, del2) <==> Passes(TrueRuns(buf), del1, del2))
  }

  /** A buffer with 128 set bits and a run of seven, in which the scan sees no run longer than one. */
  function Quiet(): seq<Byte> {
    seq(28, _ => 0x55) + [0x7F, 0x49, 0x49, 0x49]
  }

  lemma {:induction false} QuietScan(n: nat)
    requires 0 < n <= 28
    ensures ScanTo(Quiet(), n) == Scan(true, false, 1, 0, if n == 1 then 0 else 1, 1, 4 * n)
  {
    hide EntryOf, BitsOf;
    EntryOf55();
    assert Quiet()[0] == Quiet()[n - 1] == 0x55;
    if n > 1 {
      QuietScan(n - 1);
    } else {
      assert ScanTo(Quiet(), 0) == Scan(false, true, 0, 0, 0, 0, 0);
    }
  }

  lemma EntryOf55()
    ensures EntryOf(BitsOf(0x55)) == Entry(4, 0, 1, 1, 0, true)
    ensures EntryOf(BitsOf(0x49)) == Entry(3, 0, 1, 1, 0, true)
    ensures EntryOf(BitsOf(0x7F)) == Entry(7, 0, 7, 1, 0, true)
  {
    var a, b, c := BitsOf(0x55), BitsOf(0x49), BitsOf(0x7F);
    assert a == [true, false, true, false, true, false, true, false];
    assert b == [true, false, false, true, false, false, true, false];
    assert c == [true, true, true, true, true, true, true, false];
    Unrolled(a);
    Unrolled(b);
    Unrolled(c);
  }

  lemma Unrolled(b: seq<bool>)
    requires |b| == 8
    ensures EntryOf(b).in0 == RunUp(b, 0, false) && EntryOf(b).ones == Ones(b, 8)
  {
    RunUpUnrolled(b, false);
    RunUpUnrolled(b, true);
    RunDownUnrolled(b, false);
    RunDownUnrolled(b, true);
    OnesUnrolled(b);
  }

  lemma QuietRuns()
    ensures |Quiet()| == 32 && TableRuns(Quiet()) == Runs(1, 1, 128)
  {
    hide EntryOf, BitsOf;
    var q := Quiet();
    QuietScan(28);
    EntryOf55();
    assert q[28] == 0x7F && q[29] == q[30] == q[31] == 0x49;
    assert ScanTo(q, 29) == Scan(true, false, 1, 0, 1, 1, 119);
    assert ScanTo(q, 30) == Scan(true, false, 1, 0, 1, 1, 122);
    assert ScanTo(q, 31) == Scan(true, false, 1, 0, 1, 1, 125);
    assert ScanTo(q, 32) == Scan(true, false, 1, 0, 1, 1, 128);
  }

  lemma SevenBits()
    ensures |BufferBits(Quiet())| == 256 && forall k :: 224 <= k < 231 ==> BufferBits(Quiet())[k]
  {
    var q := Quiet();
    var bits := BufferBits(q);
    BufferBitsAt(q, 28);
    assert q[28] == 0x7F && |q| == 32;
    assert BitsOf(0x7F) == [true, true, true, true, true, true, true, false];
    var byte := bits[224..232];
    hide BitsOf, BufferBits;
    assert byte == BitsOf(0x7F);
    forall k | 224 <= k < 231 ensures bits[k] {
      assert bits[k] == byte[k - 224];
    }
  }

  /** The run of seven is really there. */
  lemma QuietHoldsSeven()
    ensures TrueRuns(Quiet()).ones >= 7
  {
    hide BitsOf, BufferBits, Quiet, Longest;
    SevenBits();
    var bits := BufferBits(Quiet());
    assert Stretch(bits, 224, 231, true);
    LongestIsLongest(bits, |bits|, true);
  }

  /** The pass/fail decision is that of the definition for every buffer if and only if `del1 >= -22` -- runs of
      eight are needed then -- or one of the thresholds is so low that every buffer passes. */
  lemma AgreesExactlyWhen(del1: int, del2: int)
    ensures AlwaysAgrees(del1, del2) <==> del1 >= -22 || del1 <= -29 || del2 <= -40
  {
    if del1 >= -22 || del1 <= -29 || del2 <= -40 {
      forall buf: seq<Byte> | |buf| == 32
        ensures Passes(TableRuns(buf), del1, del2) <==> Passes(TrueRuns(buf), del1, del2)
      {
        TableRunsAreTrue(buf);
      }
    } else {
      QuietRuns();
      QuietHoldsSeven();
      TableRunsAreTrue(Quiet());
      assert !Passes(TableRuns(Quiet()), del1, del2);
      assert Passes(TrueRuns(Quiet()), del1, del2);
    }
  }
}
