/** Splitting a codec configuration into its two NAL units at the second start code. */
module SpsPps {
  import opened Bytes

  /** `zeros` zero bytes and a one: the Annex B start codes have two or three zeros. */
  function StartCode(zeros: nat): (code: seq<byte>)
    ensures |code| == zeros + 1 && code[zeros] == 1 && forall k :: 0 <= k < zeros ==> code[k] == 0
  {
    seq(zeros, _ => 0) + [1]
  }

  /** A start code lies wholly inside the buffer at `i`. */
  predicate CodeAt(b: seq<byte>, i: nat, zeros: nat) {
    i + zeros < |b| && b[i + zeros] == 1 && forall k :: i <= k < i + zeros ==> b[k] == 0
  }

  /** The outcome of a chain of && comparisons; `Beyond` when it reads past the buffer. */
  datatype Probe = Match | NoMatch | Beyond

  function ProbeAt(b: seq<byte>, i: nat, zeros: nat): (p: Probe)
    ensures p == Match <==> CodeAt(b, i, zeros)
    ensures p == Beyond <==> |b| <= i + zeros && forall k :: i <= k < |b| ==> b[k] == 0
    decreases zeros
  {
    if i >= |b| then Beyond
    else if zeros == 0 then (if b[i] == 1 then Match else NoMatch)
    else if b[i] != 0 then NoMatch
    else ProbeAt(b, i + 1, zeros - 1)
  }

  datatype Outcome =
    | Split(sps: seq<byte>, pps: seq<byte>)
    | NoStartCode
    | ReadsBeyond

  /** The first position from `i` on where the comparisons do not simply fail. */
  function Scan(b: seq<byte>, i: nat, zeros: nat): (j: nat)
    requires i <= |b|
    ensures i <= j <= |b|
    ensures j < |b| ==> ProbeAt(b, j, zeros) != NoMatch
    ensures forall k :: i <= k < j ==> ProbeAt(b, k, zeros) == NoMatch
    decreases |b| - i
  {
    if i == |b| || ProbeAt(b, i, zeros) != NoMatch then i else Scan(b, i + 1, zeros)
  }

  function SplitAt(b: seq<byte>, zeros: nat): Outcome
    requires b != []
  {
    var j := Scan(b, 1, zeros);
    if j == |b| then NoStartCode
    else if ProbeAt(b, j, zeros) == Match then Split(b[..j], b[j..])
    else ReadsBeyond
  }

  function Handled(b: seq<byte>): Outcome {
    match ProbeAt(b, 0, 3)
    case Beyond => ReadsBeyond
    case Match => SplitAt(b, 3)
    case NoMatch =>
      match ProbeAt(b, 0, 2)
      case Beyond => ReadsBeyond
      case Match => SplitAt(b, 2)
      case NoMatch => NoStartCode
  }

  /** The scan of handleSpsPps; the search for a lone 103 and 104 after `NoStartCode` is not modelled. */
  method HandleSpsPps(spsPps: array<byte>) returns (r: Outcome)
    ensures r == Handled(spsPps[..])
  {
    var b := spsPps[..];
    var size := spsPps.Length;
    var zeros := 3;
    var leading := ProbeAt(b, 0, 3);
    if leading == NoMatch {
      zeros := 2;
      leading := ProbeAt(b, 0, 2);
    }
    if leading == Beyond {
      return ReadsBeyond;
    }
    if leading == NoMatch {
      return NoStartCode;
    }
    var i := 1;
    while i < size
      invariant 1 <= i <= size && Scan(b, 1, zeros) == Scan(b, i, zeros)
    {
      var probe := ProbeAt(b, i, zeros);
      if probe == Match {
        return Split(b[..i], b[i..]);
      } else if probe == Beyond {
        return ReadsBeyond;
      }
      i := i + 1;
    }
    r := NoStartCode;
  }

  // ----- Properties

  function Nal(zeros: nat, body: seq<byte>): seq<byte> { StartCode(zeros) + body }

  predicate HasCode(b: seq<byte>, from: nat, zeros: nat) {
    exists i :: from <= i < |b| && CodeAt(b, i, zeros)
  }

  lemma LeadingCode(b: seq<byte>, zeros: nat)
    requires zeros == 2 || zeros == 3
    requires CodeAt(b, 0, zeros)
    ensures Handled(b) == SplitAt(b, zeros)
  {
    assert b[zeros] == 1;
  }

  lemma JoinedBytes(zeros: nat, sps: seq<byte>, pps: seq<byte>)
    ensures var b, d, n := Nal(zeros, sps) + Nal(zeros, pps), zeros + 1, zeros + 1 + |sps|;
            && |b| == n + d + |pps|
            && (forall k :: 0 <= k < zeros ==> b[k] == 0) && b[zeros] == 1
            && (forall k :: d <= k < n ==> b[k] == sps[k - d])
            && (forall k :: n <= k < n + zeros ==> b[k] == 0) && b[n + zeros] == 1
  {
    var b, n := Nal(zeros, sps) + Nal(zeros, pps), zeros + 1 + |sps|;
    assert forall k :: n <= k <= n + zeros ==> b[k] == StartCode(zeros)[k - n];
  }

  lemma CodeInBody(b: seq<byte>, zeros: nat, sps: seq<byte>, i: nat)
    requires zeros >= 1 && zeros < i < zeros + 1 + |sps| && |b| > zeros + 1 + |sps| + zeros
    requires forall k :: zeros + 1 <= k < zeros + 1 + |sps| ==> b[k] == sps[k - (zeros + 1)]
    requires forall k :: zeros + 1 + |sps| <= k < zeros + 1 + |sps| + zeros ==> b[k] == 0
    ensures CodeAt(b, i, zeros) <==> CodeAt(sps, i - (zeros + 1), zeros)
    ensures ProbeAt(b, i, zeros) != Beyond
  {
    var d := zeros + 1;
    assert forall m :: 0 <= m < |sps| ==> sps[m] == b[m + d];
  }

  /** In two joined units, the start codes between the leading one and the second unit's own are
      those inside the first body: none straddles a boundary, and no comparison leaves the buffer. */
  lemma {:induction false} CodesOfJoin(zeros: nat, sps: seq<byte>, pps: seq<byte>, i: nat)
    requires zeros >= 1 && 1 <= i < zeros + 1 + |sps|
    ensures var b := Nal(zeros, sps) + Nal(zeros, pps);
            && CodeAt(b, 0, zeros) && CodeAt(b, zeros + 1 + |sps|, zeros)
            && (CodeAt(b, i, zeros) <==> i >= zeros + 1 && CodeAt(sps, i - zeros - 1, zeros))
            && ProbeAt(b, i, zeros) != Beyond
  {
    JoinedBytes(zeros, sps, pps);
    var b := Nal(zeros, sps) + Nal(zeros, pps);
    if i <= zeros {
      assert b[zeros] == 1;
    } else {
      CodeInBody(b, zeros, sps, i);
    }
  }

  /** The first start code behind the leading one, and where it is. */
  ghost predicate CutAt(b: seq<byte>, zeros: nat, j: nat) {
    1 <= j < |b| && CodeAt(b, j, zeros) && forall i :: 1 <= i < j ==> !CodeAt(b, i, zeros)
  }

  lemma ScanFindsCode(b: seq<byte>, zeros: nat)
    requires b != []
    ensures var j := Scan(b, 1, zeros);
            && (j < |b| && ProbeAt(b, j, zeros) == Match <==> HasCode(b, 1, zeros))
            && (j < |b| && ProbeAt(b, j, zeros) == Match ==> CutAt(b, zeros, j))
  {
    var j := Scan(b, 1, zeros);
    if HasCode(b, 1, zeros) {
      var i :| 1 <= i < |b| && CodeAt(b, i, zeros);
      assert ProbeAt(b, i, zeros) == Match;
      assert j <= i;
      assert ProbeAt(b, j, zeros) == Beyond ==> |b| <= j + zeros;
    }
    if j < |b| && ProbeAt(b, j, zeros) == Match {
      forall i | 1 <= i < j
        ensures !CodeAt(b, i, zeros)
      {
        assert ProbeAt(b, i, zeros) == NoMatch;
      }
    }
  }

  lemma SplitAtCut(b: seq<byte>, zeros: nat, j: nat)
    requires (zeros == 2 || zeros == 3) && CodeAt(b, 0, zeros) && CutAt(b, zeros, j)
    ensures Handled(b) == Split(b[..j], b[j..])
  {
    LeadingCode(b, zeros);
    ScanFindsCode(b, zeros);
    assert HasCode(b, 1, zeros);
  }

  /** The joint is the first start code behind the leading one exactly if the first body holds none. */
  lemma JointIsCut(zeros: nat, sps: seq<byte>, pps: seq<byte>)
    requires zeros >= 1
    ensures var b, n := Nal(zeros, sps) + Nal(zeros, pps), zeros + 1 + |sps|;
            && CodeAt(b, 0, zeros) && CodeAt(b, n, zeros)
            && (CutAt(b, zeros, n) <==> !HasCode(sps, 0, zeros))
  {
    var b, n := Nal(zeros, sps) + Nal(zeros, pps), zeros + 1 + |sps|;
    CodesOfJoin(zeros, sps, pps, 1);
    forall i | 0 <= i < |sps|
      ensures CodeAt(sps, i, zeros) <==> CodeAt(b, i + zeros + 1, zeros)
    {
      CodesOfJoin(zeros, sps, pps, i + zeros + 1);
    }
    forall i | 1 <= i < n && CodeAt(b, i, zeros)
      ensures HasCode(sps, 0, zeros)
    {
      CodesOfJoin(zeros, sps, pps, i);
      assert CodeAt(sps, i - zeros - 1, zeros);
    }
  }

  /** Splitting recovers exactly the two joined units if and only if the first body holds no start
      code of the same length; what the second body holds does not matter. */
  lemma {:induction false} SplitUndoesJoin(zeros: nat, sps: seq<byte>, pps: seq<byte>)
    requires zeros == 2 || zeros == 3
    ensures Handled(Nal(zeros, sps) + Nal(zeros, pps)) == Split(Nal(zeros, sps), Nal(zeros, pps))
       <==> !HasCode(sps, 0, zeros)
  {
    var first := Nal(zeros, sps);
    var b, n := first + Nal(zeros, pps), |first|;
    JointIsCut(zeros, sps, pps);
    ScanFindsCode(b, zeros);
    assert HasCode(b, 1, zeros);
    var j := Scan(b, 1, zeros);
    SplitAtCut(b, zeros, j);
    assert b[..n] == first && b[n..] == Nal(zeros, pps);
    assert j != n ==> |b[..j]| != n;
  }

  /** Behind a leading start code, the scan reads past the end if and only if there is no second one
      and the last byte is zero. */
  lemma {:induction false} ReadsBeyondAfterCode(b: seq<byte>, zeros: nat)
    requires zeros == 2 || zeros == 3
    requires CodeAt(b, 0, zeros)
    ensures Handled(b) == ReadsBeyond <==> b[|b| - 1] == 0 && !HasCode(b, 1, zeros)
  {
    var j := Scan(b, 1, zeros);
    assert Handled(b) == SplitAt(b, zeros) by { assert b[zeros] == 1; }
    assert b[|b| - 1] == 0 ==> ProbeAt(b, |b| - 1, zeros) == Beyond;
    if Handled(b) == ReadsBeyond {
      forall i | 1 <= i < |b|
        ensures !CodeAt(b, i, zeros)
      {
        assert i < j ==> ProbeAt(b, i, zeros) == NoMatch;
        assert i >= j ==> |b| <= i + zeros;
      }
    }
  }

  /** For every buffer: the scan reads past the end if and only if, behind a leading start code, there is
      no second one and the last byte is zero, or, without a leading one, the buffer is nothing but at
      most three zeros. */
  lemma ReadsBeyondExactly(b: seq<byte>)
    ensures Handled(b) == ReadsBeyond <==>
              if CodeAt(b, 0, 3) then b[|b| - 1] == 0 && !HasCode(b, 1, 3)
              else if CodeAt(b, 0, 2) then b[|b| - 1] == 0 && !HasCode(b, 1, 2)
              else |b| <= 3 && forall k :: 0 <= k < |b| ==> b[k] == 0
  {
    if CodeAt(b, 0, 3) {
      ReadsBeyondAfterCode(b, 3);
    } else if CodeAt(b, 0, 2) {
      ReadsBeyondAfterCode(b, 2);
    }
  }
  /** What becomes of every buffer: with a leading start code, the longer one if both fit, it is cut at the
      first start code of that length behind it if there is one; else the scan reads past the end, or
      finds that there is none, as above. */
  lemma HandledExactly(b: seq<byte>)
    ensures var zeros := if CodeAt(b, 0, 3) then 3 else 2;
            match Handled(b)
            case Split(sps, pps) => CodeAt(b, 0, zeros) && sps + pps == b && CutAt(b, zeros, |sps|)
            case NoStartCode =>
              if CodeAt(b, 0, zeros) then !HasCode(b, 1, zeros) && b[|b| - 1] != 0
              else !(|b| <= 3 && forall k :: 0 <= k < |b| ==> b[k] == 0)
            case ReadsBeyond =>
              if CodeAt(b, 0, zeros) then !HasCode(b, 1, zeros) && b[|b| - 1] == 0
              else |b| <= 3 && forall k :: 0 <= k < |b| ==> b[k] == 0
  {
    var zeros := if CodeAt(b, 0, 3) then 3 else 2;
    ReadsBeyondExactly(b);
    if CodeAt(b, 0, zeros) {
      LeadingCode(b, zeros);
      ScanFindsCode(b, zeros);
    }
  }
}
