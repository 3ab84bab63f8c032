/**
 * The integer part of the rigid-body question generator `generate` in
 * templateCourses/dynamics/questions/rbmOmega/server.py: a body turning with
 * angular velocity omega about the z axis, points P and Q with Q - P = rPQ,
 * and the velocities vP and vQ = vP + omega x rPQ shown to the student, who
 * has to find omega.
 */
module RbmOmega {
  import opened Options
  import VectorText
  import RandomDraws

  datatype Vec = Vec(x: int, y: int, z: int)

  function Add(a: Vec, b: Vec): Vec {
    Vec(a.x + b.x, a.y + b.y, a.z + b.z)
  }

  function Sub(a: Vec, b: Vec): Vec {
    Vec(a.x - b.x, a.y - b.y, a.z - b.z)
  }

  function Dot(a: Vec, b: Vec): int {
    a.x * b.x + a.y * b.y + a.z * b.z
  }

  /** `np.cross(a, b)` */
  function Cross(a: Vec, b: Vec): Vec {
    Vec(a.y * b.z - a.z * b.y, a.z * b.x - a.x * b.z, a.x * b.y - a.y * b.x)
  }

  function FromSeq(r: seq<int>): Vec
    requires |r| == 3
  {
    Vec(r[0], r[1], r[2])
  }

  function AsSeq(v: Vec): seq<int> {
    [v.x, v.y, v.z]
  }

  function Components(v: Vec): seq<VectorText.Component> {
    [VectorText.Int(v.x), VectorText.Int(v.y), VectorText.Int(v.z)]
  }

  /**
   * `np.rint(k / 2)` for an integer k: the integer nearest to k/2, and when
   * k/2 lies halfway between two integers, the even one.
   */
  function HalfRounded(k: int): (h: int)
    ensures -1 <= 2 * h - k <= 1
    ensures k % 2 != 0 ==> h % 2 == 0
  {
    var q := k / 2;
    if k % 2 == 0 || q % 2 == 0 then q else q + 1
  }

  /** Rounding half to even leaves no choice: only one integer meets its contract. */
  lemma HalfRoundedUnique(k: int, h: int)
    requires -1 <= 2 * h - k <= 1
    requires k % 2 != 0 ==> h % 2 == 0
    ensures h == HalfRounded(k)
  {
    var q := k / 2;
    assert k == 2 * q + k % 2;
    if k % 2 != 0 {
      assert h == q || h == q + 1;
      if q % 2 == 0 {
        assert (q + 1) % 2 != 0;
      } else {
        assert q % 2 != 0;
      }
    }
  }

  /** What `pl.to_json` serialises, kept as the values themselves. */
  datatype Param = TextParam(text: string) | IntVector(values: seq<int>)

  /** The question's `data` dictionary: its "params" and "correct_answers" entries. */
  class QuestionData {
    var params: map<string, Param>
    var correctAnswers: map<string, real>

    constructor (params: map<string, Param>, correctAnswers: map<string, real>)
      ensures this.params == params && this.correctAnswers == correctAnswers
    {
      this.params := params;
      this.correctAnswers := correctAnswers;
    }
  }

  const GeneratedParams: set<string> := {"rPQ_vec", "vP_vec", "vQ_vec", "rPQ", "vP", "vQ"}

  /** `cartesianVector` of an integer vector. */
  function CartesianText(v: Vec): string {
    VectorText.Render(Components(v), VectorText.CartesianBasis)
  }

  /** The rounded half of a relative velocity in the plane, `np.rint([d.x / 2, d.y / 2, 0])`. */
  function HalfOffset(d: Vec): Vec {
    Vec(HalfRounded(d.x), HalfRounded(d.y), 0)
  }

  /**
   * The parameters `generate` stores for omega = w k, rPQ and the drawn vP:
   * rPQ, and both velocities vP and vQ = vP + omega x rPQ shifted by the same
   * half offset, each as its vector and its LaTeX text.
   */
  function StoredParams(params: map<string, Param>, w: int, rPQ: Vec, vP: Vec): map<string, Param> {
    var d := Cross(Vec(0, 0, w), rPQ);
    var h := HalfOffset(d);
    var sP := Sub(vP, h);
    var sQ := Sub(Add(vP, d), h);
    params["rPQ_vec" := TextParam(CartesianText(rPQ))]["vP_vec" := TextParam(CartesianText(sP))]
          ["vQ_vec" := TextParam(CartesianText(sQ))]
          ["rPQ" := IntVector(AsSeq(rPQ))]["vP" := IntVector(AsSeq(sP))]["vQ" := IntVector(AsSeq(sQ))]
  }

  predicate IsVector(params: map<string, Param>, key: string) {
    key in params && params[key].IntVector? && |params[key].values| == 3
  }

  predicate ShowsVector(params: map<string, Param>, textKey: string, v: Vec) {
    textKey in params && params[textKey] == TextParam(CartesianText(v))
  }

  /**
   * A posed question: omega is a non-zero integer of [-5, 5]; rPQ lies in the
   * xy-plane, is not zero, and has components in [-5, 5); both velocities lie
   * in the xy-plane and satisfy vQ - vP = omega k x rPQ; each vector is also
   * shown as LaTeX text.
   */
  ghost predicate Posed(params: map<string, Param>, answers: map<string, real>) {
    "omega" in answers && VectorText.IsIntegral(answers["omega"]) &&
    IsVector(params, "rPQ") && IsVector(params, "vP") && IsVector(params, "vQ") &&
    var w := answers["omega"].Floor;
    var rPQ := FromSeq(params["rPQ"].values);
    var vP := FromSeq(params["vP"].values);
    var vQ := FromSeq(params["vQ"].values);
    w != 0 && -5 <= w <= 5 &&
    rPQ.z == 0 && (rPQ.x != 0 || rPQ.y != 0) &&
    -5 <= rPQ.x < 5 && -5 <= rPQ.y < 5 &&
    vP.z == 0 && vQ.z == 0 &&
    Sub(vQ, vP) == Cross(Vec(0, 0, w), rPQ) &&
    ShowsVector(params, "rPQ_vec", rPQ) &&
    ShowsVector(params, "vP_vec", vP) &&
    ShowsVector(params, "vQ_vec", vQ)
  }

  /**
   * `generate(data)`. The three random calls read their values from
   * `omegaDraws`, `rDraws` and `vDraws`. The question is generated exactly
   * when each rejection loop accepts a value within its draws, and it is
   * built from those accepted values; otherwise `data` is left as it was.
   */
  method Generate(data: QuestionData, omegaDraws: seq<int>, rDraws: seq<int>, vDraws: seq<int>)
    returns (done: bool)
    requires forall k :: 0 <= k < |omegaDraws| ==> RandomDraws.InClosedRange(omegaDraws[k], -5, 5)
    requires forall k :: 0 <= k < |rDraws| ==> RandomDraws.InRandRange(rDraws[k], -5, 5, 1)
    requires forall k :: 0 <= k < |vDraws| ==> RandomDraws.InRandRange(vDraws[k], -5, 5, 1)
    modifies data
    ensures done <==> RandomDraws.FirstNonZero(omegaDraws).Some? &&
                      RandomDraws.FirstNonZeroBatch(2, rDraws).Some? &&
                      RandomDraws.FirstNonZeroBatch(2, vDraws).Some?
    ensures done ==>
              var w := RandomDraws.FirstNonZero(omegaDraws).value;
              var rPQ := FromSeq(RandomDraws.FirstNonZeroBatch(2, rDraws).value);
              var vP := FromSeq(RandomDraws.FirstNonZeroBatch(2, vDraws).value);
              data.params == StoredParams(old(data.params), w, rPQ, vP) &&
              data.correctAnswers == old(data.correctAnswers)["omega" := w as real]
    ensures done ==> Posed(data.params, data.correctAnswers)
    ensures !done ==> data.params == old(data.params) && data.correctAnswers == old(data.correctAnswers)
  {
    var w, _ := RandomDraws.RandIntNonZero(-5, 5, omegaDraws);
    if !w.Accepted? {
      return false;
    }
    var r, _ := RandomDraws.RandIntNonZeroArray(2, -5, 5, 1, rDraws);
    if !r.Accepted? {
      return false;
    }
    var rPQ := FromSeq(r.value);
    var p, _ := RandomDraws.RandIntNonZeroArray(2, -5, 5, 1, vDraws);
    if !p.Accepted? {
      return false;
    }
    var vP := FromSeq(p.value);
    Pose(data, w.value, rPQ, vP);
    done := true;
  }

  /**
   * The part of `generate` after the draws: vQ = vP + omega x rPQ, both
   * velocities shifted by the rounded half of their difference, then the
   * texts, vectors and answer stored in `data`.
   */
  method Pose(data: QuestionData, w: int, rPQ: Vec, vP: Vec)
    requires w != 0 && -5 <= w <= 5
    requires rPQ.z == 0 && (rPQ.x != 0 || rPQ.y != 0) && -5 <= rPQ.x < 5 && -5 <= rPQ.y < 5
    requires vP.z == 0
    modifies data
    ensures data.params == StoredParams(old(data.params), w, rPQ, vP)
    ensures data.correctAnswers == old(data.correctAnswers)["omega" := w as real]
    ensures Posed(data.params, data.correctAnswers)
  {
    var omega := Vec(0, 0, w);
    var vQ := Add(vP, Cross(omega, rPQ));
    var offset := Sub(vQ, vP);
    assert offset == Cross(omega, rPQ);
    var halfOffset := Vec(HalfRounded(offset.x), HalfRounded(offset.y), 0);
    var shiftedP := Sub(vP, halfOffset);
    var shiftedQ := Sub(vQ, halfOffset);

    var rText := VectorText.CartesianVector(Components(rPQ));
    var vPText := VectorText.CartesianVector(Components(shiftedP));
    var vQText := VectorText.CartesianVector(Components(shiftedQ));
    var params := data.params;
    var answers := data.correctAnswers;
    data.params := params["rPQ_vec" := TextParam(rText)]["vP_vec" := TextParam(vPText)]["vQ_vec" := TextParam(vQText)]
                         ["rPQ" := IntVector(AsSeq(rPQ))]["vP" := IntVector(AsSeq(shiftedP))]["vQ" := IntVector(AsSeq(shiftedQ))];
    data.correctAnswers := answers["omega" := w as real];
    StoredQuestionIsPosed(params, answers, w, rPQ, vP);
  }

  /** Storing a valid draw poses the question. */
  lemma StoredQuestionIsPosed(params: map<string, Param>, answers: map<string, real>, w: int, rPQ: Vec, vP: Vec)
    requires w != 0 && -5 <= w <= 5
    requires rPQ.z == 0 && (rPQ.x != 0 || rPQ.y != 0) && -5 <= rPQ.x < 5 && -5 <= rPQ.y < 5
    requires vP.z == 0
    ensures Posed(StoredParams(params, w, rPQ, vP), answers["omega" := w as real])
  {
    var d := Cross(Vec(0, 0, w), rPQ);
    var h := HalfOffset(d);
    var sP := Sub(vP, h);
    var sQ := Sub(Add(vP, d), h);
    ShiftKeepsRelativeVelocity(vP, Add(vP, d));
    assert Sub(sQ, sP) == d;
    assert (w as real).Floor == w;
    assert FromSeq(AsSeq(rPQ)) == rPQ && FromSeq(AsSeq(sP)) == sP && FromSeq(AsSeq(sQ)) == sQ;
  }

  /** The six stored parameters are added or replaced; every other parameter keeps its value. */
  lemma StoreKeepsOtherKeys(params: map<string, Param>, w: int, rPQ: Vec, vP: Vec)
    ensures var stored := StoredParams(params, w, rPQ, vP);
      stored.Keys == params.Keys + GeneratedParams &&
      forall key :: key in params && key !in GeneratedParams ==> stored[key] == params[key]
  {
  }

  /** The relative velocity omega x r is perpendicular to both omega and r. */
  lemma CrossPerpendicular(a: Vec, b: Vec)
    ensures Dot(Cross(a, b), a) == 0 && Dot(Cross(a, b), b) == 0
  {
    assert Dot(Cross(a, b), a) == (a.y * b.z) * a.x - (a.z * b.y) * a.x + (a.z * b.x) * a.y
                                - (a.x * b.z) * a.y + (a.x * b.y) * a.z - (a.y * b.x) * a.z;
    assert Dot(Cross(a, b), b) == (a.y * b.z) * b.x - (a.z * b.y) * b.x + (a.z * b.x) * b.y
                                - (a.x * b.z) * b.y + (a.x * b.y) * b.z - (a.y * b.x) * b.z;
  }

  /**
   * Subtracting the same vector from both velocities keeps their difference;
   * with the rounded half-offset, the two shifted velocities lie around the
   * drawn vP: their sum differs from 2 vP by at most one in each component.
   */
  lemma ShiftKeepsRelativeVelocity(vP: Vec, vQ: Vec)
    requires vQ.z == vP.z
    ensures var offset := Sub(vQ, vP);
      var h := Vec(HalfRounded(offset.x), HalfRounded(offset.y), 0);
      var sP := Sub(vP, h);
      var sQ := Sub(vQ, h);
      Sub(sQ, sP) == offset &&
      -1 <= sP.x + sQ.x - 2 * vP.x <= 1 && -1 <= sP.y + sQ.y - 2 * vP.y <= 1 &&
      sP.z == vP.z && sQ.z == vQ.z
  {
  }

  /**
   * The student can recover omega: for omega along z and a non-zero rPQ in the
   * xy-plane, the relative velocity d = omega x rPQ has no z-component and
   * determines omega, since rPQ.x d.y - rPQ.y d.x = omega |rPQ|^2 with |rPQ|^2 > 0.
   */
  lemma OmegaRecoverable(w: int, w': int, r: Vec)
    requires r.z == 0 && (r.x != 0 || r.y != 0)
    ensures var d := Cross(Vec(0, 0, w), r);
      d.z == 0 && r.x * d.y - r.y * d.x == w * (r.x * r.x + r.y * r.y)
    ensures Cross(Vec(0, 0, w'), r) == Cross(Vec(0, 0, w), r) ==> w' == w
  {
    var d := Cross(Vec(0, 0, w), r);
    assert d == Vec(-(w * r.y), w * r.x, 0);
    var n := r.x * r.x + r.y * r.y;
    assert n > 0 by {
      if r.x != 0 {
        assert r.x * r.x > 0;
      } else {
        assert r.y * r.y > 0;
      }
    }
    assert r.x * d.y - r.y * d.x == w * n by {
      assert r.x * (w * r.x) == w * (r.x * r.x);
      assert r.y * (w * r.y) == w * (r.y * r.y);
    }
    if Cross(Vec(0, 0, w'), r) == d {
      var d' := Cross(Vec(0, 0, w'), r);
      assert d' == Vec(-(w' * r.y), w' * r.x, 0);
      assert r.x * d'.y - r.y * d'.x == w' * n by {
        assert r.x * (w' * r.x) == w' * (r.x * r.x);
        assert r.y * (w' * r.y) == w' * (r.y * r.y);
      }
      assert (w - w') * n == 0;
    }
  }
}
