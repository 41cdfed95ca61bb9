/** The older client's passage-order wheel: which teams it is offered for,
    the spin guard, and the order it derives from the winning segment. The
    spin animation and the angle-to-segment computation are floating point
    and are left out; the winning segment is a parameter. */
module SpinningWheel {
  import opened Util
  import opened ClientTypes

  /** The index in the input of the team placed at position `i` when the
      wheel stops on `winner`. */
  function RotationIndex(n: nat, winner: nat, i: nat): (k: nat)
    requires n > 0
    ensures k < n
  {
    (winner + i) % n
  }

  /** `generateOrderFromWinner`: the teams read round the wheel from the
      winner, the i-th stamped with passage order i + 1. */
  method GenerateOrderFromWinner(teams: seq<Team>, winner: nat) returns (ordered: seq<Team>)
    ensures |ordered| == |teams|
    ensures forall i :: 0 <= i < |ordered| ==>
              ordered[i] == teams[RotationIndex(|teams|, winner, i)].(passageOrder := Some(i + 1))
  {
    ordered := [];
    var i := 0;
    while i < |teams|
      invariant 0 <= i <= |teams|
      invariant |ordered| == i
      invariant forall k :: 0 <= k < i ==>
                  ordered[k] == teams[RotationIndex(|teams|, winner, k)].(passageOrder := Some(k + 1))
    {
      var index := (winner + i) % |teams|;
      ordered := ordered + [teams[index].(passageOrder := Some(i + 1))];
      i := i + 1;
    }
  }

  /** A positive multiple of `n` is at least `n`. */
  lemma {:induction false} MultipleAtLeast(k: int, n: int)
    requires k >= 1 && n > 0
    ensures k * n >= n
  {
    if k > 1 {
      MultipleAtLeast(k - 1, n);
      assert k * n == (k - 1) * n + n;
    }
  }

  /** `(q·n + r) % n == r` for `0 <= r < n`: the remainder is unique. */
  lemma ModAfterMultiple(n: nat, q: nat, r: nat)
    requires 0 <= r < n
    ensures (q * n + r) % n == r
  {
    var x := q * n + r;
    var q0, r0 := x / n, x % n;
    assert (q - q0) * n == r0 - r;
    if q - q0 >= 1 {
      MultipleAtLeast(q - q0, n);
    } else if q0 - q >= 1 {
      MultipleAtLeast(q0 - q, n);
    }
  }

  /** The position at which the wheel places input team `j`:
      `(j - winner) mod n`. */
  function Position(n: nat, winner: nat, j: nat): nat
    requires 0 < n
  {
    if j >= winner % n then j - winner % n else j - winner % n + n
  }

  /** Every team is reached: position `Position(n, winner, j)` holds team `j`. */
  lemma RotationOnto(n: nat, winner: nat, j: nat)
    requires 0 < n && j < n
    ensures Position(n, winner, j) < n && RotationIndex(n, winner, Position(n, winner, j)) == j
  {
    var r := winner % n;
    var q := winner / n;
    assert winner == q * n + r;
    if j >= r {
      assert winner + (j - r) == q * n + j;
      ModAfterMultiple(n, q, j);
    } else {
      assert winner + (j - r + n) == (q + 1) * n + j;
      ModAfterMultiple(n, q + 1, j);
    }
  }

  /** Position `i` holds the team `i` places after the winner's, counted
      round the wheel. */
  lemma RotationFromWinner(n: nat, winner: nat, i: nat)
    requires 0 < n && i < n
    ensures var r := winner % n;
            RotationIndex(n, winner, i) == if r + i < n then r + i else r + i - n
  {
    var r := winner % n;
    var q := winner / n;
    assert winner == q * n + r;
    if r + i < n {
      assert winner + i == q * n + (r + i);
      ModAfterMultiple(n, q, r + i);
    } else {
      assert winner + i == (q + 1) * n + (r + i - n);
      ModAfterMultiple(n, q + 1, r + i - n);
    }
  }

  /** No team is reached twice. */
  lemma RotationInjective(n: nat, winner: nat, i1: nat, i2: nat)
    requires 0 < n && i1 < n && i2 < n && i1 != i2
    ensures RotationIndex(n, winner, i1) != RotationIndex(n, winner, i2)
  {
    RotationFromWinner(n, winner, i1);
    RotationFromWinner(n, winner, i2);
  }

  /** The wheel's order uses every team exactly once: each input team sits
      at its position, with that position's passage order, and two
      positions never hold the same input team. */
  lemma WheelOrderIsPermutation(teams: seq<Team>, winner: nat, ordered: seq<Team>)
    requires |ordered| == |teams|
    requires forall i :: 0 <= i < |ordered| ==>
               ordered[i] == teams[RotationIndex(|teams|, winner, i)].(passageOrder := Some(i + 1))
    ensures forall j :: 0 <= j < |teams| ==>
              var i := Position(|teams|, winner, j);
              i < |ordered| && ordered[i] == teams[j].(passageOrder := Some(i + 1))
    ensures forall i1, i2 :: 0 <= i1 < i2 < |ordered| ==>
              RotationIndex(|teams|, winner, i1) != RotationIndex(|teams|, winner, i2)
  {
    var n := |teams|;
    forall j | 0 <= j < n
      ensures var i := Position(n, winner, j);
              i < |ordered| && ordered[i] == teams[j].(passageOrder := Some(i + 1))
    {
      RotationOnto(n, winner, j);
    }
    forall i1, i2 | 0 <= i1 < i2 < n
      ensures RotationIndex(n, winner, i1) != RotationIndex(n, winner, i2)
    {
      RotationInjective(n, winner, i1, i2);
    }
  }

  /** What the component shows for a number of teams. */
  datatype WheelView = NoTeams | TooManyTeams | Wheel

  const MaxWheelTeams: nat := 20

  function View(teamCount: nat): (v: WheelView)
    ensures v == Wheel <==> 1 <= teamCount <= MaxWheelTeams
    ensures v == NoTeams <==> teamCount == 0
  {
    if teamCount == 0 then NoTeams
    else if teamCount > MaxWheelTeams then TooManyTeams
    else Wheel
  }

  /** The wheel's spin state over a fixed list of teams. */
  class Spinner {
    const teams: seq<Team>
    var isSpinning: bool

    constructor(teams: seq<Team>)
      ensures this.teams == teams && !isSpinning
    {
      this.teams := teams;
      isSpinning := false;
    }

    /** `spinWheel`: ignored while a spin is in progress. */
    method SpinWheel()
      modifies this
      ensures old(isSpinning) ==> isSpinning == old(isSpinning)
      ensures isSpinning
    {
      if isSpinning {
        return;
      }
      isSpinning := true;
    }

    /** The end of the animation: the spin state is released and the order
        is derived from the segment under the pointer. */
    method FinishSpin(winner: nat) returns (ordered: seq<Team>)
      modifies this
      ensures !isSpinning
      ensures |ordered| == |teams|
      ensures forall i :: 0 <= i < |ordered| ==>
                ordered[i] == teams[RotationIndex(|teams|, winner, i)].(passageOrder := Some(i + 1))
    {
      isSpinning := false;
      ordered := GenerateOrderFromWinner(teams, winner);
    }
  }
}
