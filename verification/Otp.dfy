/** One-time codes by rejection sampling. */
module Otp {

  import opened Text
  import opened Protocol

  const U32_MAX := 0xFFFF_FFFF

  type u32 = n: int | 0 <= n <= U32_MAX

  const LIMIT: u32 := 1_000_000

  /** Candidates at or above this are drawn again. */
  function Threshold(limit: u32): (t: u32)
    requires limit > 0
  {
    U32_MAX - U32_MAX % limit
  }

  // ---- uniformity, for any limit ----

  lemma ThresholdIsMultiple(limit: u32)
    requires limit > 0
    ensures Threshold(limit) == U32_MAX / limit * limit
    ensures Threshold(limit) / limit == U32_MAX / limit
  {
    DivisionIsUnique(U32_MAX / limit, limit, 0);
  }

  lemma DivisionIsUnique(q: nat, d: nat, r: nat)
    requires r < d
    ensures (q * d + r) / d == q && (q * d + r) % d == r
  {
    var a := q * d + r;
    assert a == a / d * d + a % d;
    if a / d < q {
      MultiplesApart(a / d, q, d);
    } else if a / d > q {
      MultiplesApart(q, a / d, d);
    }
  }

  lemma MultiplesApart(k: nat, m: nat, d: nat)
    requires k < m
    ensures k * d + d <= m * d
  {
    assert m * d == k * d + d + (m - k - 1) * d;
  }

  /** The accepted candidates below `bound` that fall on `residue`. */
  function Candidates(bound: nat, limit: nat, residue: nat): set<nat>
    requires limit > 0
  {
    set c: nat | c < bound && c % limit == residue
  }

  lemma OneMore(k: nat, limit: nat, residue: nat)
    requires residue < limit
    ensures Candidates((k + 1) * limit, limit, residue) == Candidates(k * limit, limit, residue) + {k * limit + residue}
  {
    var low, high := k * limit, (k + 1) * limit;
    assert high == low + limit;
    forall c: nat | low <= c < high ensures c % limit == c - low {
      DivisionIsUnique(k, limit, c - low);
    }
  }

  lemma {:induction false} CountInBlocks(k: nat, limit: nat, residue: nat)
    requires residue < limit
    ensures |Candidates(k * limit, limit, residue)| == k
  {
    if k == 0 {
      assert Candidates(0 * limit, limit, residue) == {};
    } else {
      CountInBlocks(k - 1, limit, residue);
      OneMore(k - 1, limit, residue);
      assert (k - 1) * limit + residue !in Candidates((k - 1) * limit, limit, residue);
    }
  }

  /** Every residue has the same number of accepted candidates. */
  lemma ResiduesAreUniform(limit: u32, residue: nat)
    requires limit > 0 && residue < limit
    ensures |Candidates(Threshold(limit), limit, residue)| == Threshold(limit) / limit > 0
  {
    ThresholdIsMultiple(limit);
    CountInBlocks(U32_MAX / limit, limit, residue);
    assert U32_MAX / limit >= 1;
  }

  /** More than half of the 2^32 candidates are accepted, except for the limit 2^31:
      there it is exactly half, so a draw is as likely to be thrown away as kept. */
  lemma MostDrawsAccepted(limit: u32)
    requires limit > 0
    ensures 2 * Threshold(limit) > U32_MAX + 1 <==> limit != 0x8000_0000
    ensures 2 * Threshold(limit) >= U32_MAX + 1
  {
    if limit > 0x8000_0000 {
      assert U32_MAX / limit == 1;
      ThresholdIsMultiple(limit);
    } else {
      assert U32_MAX % limit < limit;
    }
  }

  // ---- the printed code ----

  function Zeros(k: nat): (s: string)
    ensures |s| == k
  {
    if k == 0 then "" else Zeros(k - 1) + "0"
  }

  /** `{n:06}`: padded with zeros on the left to at least `width` characters. */
  function Padded(n: nat, width: nat): string {
    Zeros(if |Decimal(n)| < width then width - |Decimal(n)| else 0) + Decimal(n)
  }

  lemma {:induction false} ZerosAreFixed(w: nat)
    ensures Fixed(0, w) == Zeros(w)
  {
    if w > 0 {
      ZerosAreFixed(w - 1);
    }
  }

  lemma {:induction false} PaddedIsFixed(n: nat, w: nat)
    requires w > 0 && n < Pow10(w)
    ensures |Decimal(n)| <= w && Padded(n, w) == Fixed(n, w)
  {
    if n < 10 {
      ZerosAreFixed(w - 1);
    } else {
      PaddedIsFixed(n / 10, w - 1);
    }
  }

  lemma {:induction false} FixedOfValue(s: string)
    requires AllDigits(s)
    ensures Value(s) < Pow10(|s|) && Fixed(Value(s), |s|) == s
  {
    if s != "" {
      var front := s[..|s| - 1];
      FixedOfValue(front);
      assert Value(s) / 10 == Value(front) && Value(s) % 10 == DigitOf(s[|s| - 1]);
      assert s == front + [s[|s| - 1]];
    }
  }

  lemma CodeMeans(n: nat, code: string)
    requires n < Pow10(6)
    ensures Padded(n, 6) == code <==> (|code| == 6 && AllDigits(code) && Value(code) == n)
  {
    PaddedIsFixed(n, 6);
    FixedValue(n, 6);
    if |code| == 6 && AllDigits(code) {
      FixedOfValue(code);
    }
  }

  /** Every six-digit string is the code of the same number of accepted candidates. */
  lemma CodesAreUniform(code: string)
    requires |code| == 6 && AllDigits(code)
    ensures |set c: nat | c < Threshold(LIMIT) && Padded(c % LIMIT, 6) == code| == Threshold(LIMIT) / LIMIT == 4294
  {
    MillionIsSixDigits();
    FixedOfValue(code);
    ResiduesAreUniform(LIMIT, Value(code));
    forall c: nat | c < Threshold(LIMIT)
      ensures Padded(c % LIMIT, 6) == code <==> c % LIMIT == Value(code)
    {
      CodeMeans(c % LIMIT, code);
    }
    assert (set c: nat | c < Threshold(LIMIT) && Padded(c % LIMIT, 6) == code)
        == Candidates(Threshold(LIMIT), LIMIT, Value(code));
  }

  /** The first accepted draw, or |draws|. */
  function FirstAccepted(draws: seq<u32>): (k: nat)
    ensures k <= |draws|
    ensures k < |draws| ==> draws[k] < Threshold(LIMIT)
    ensures forall i :: 0 <= i < k ==> draws[i] >= Threshold(LIMIT)
  {
    if draws == [] || draws[0] < Threshold(LIMIT) then 0 else 1 + FirstAccepted(draws[1..])
  }

  /** The draw loop over a supply of random numbers; None when the supply runs dry first. */
  method GenerateOtp(draws: seq<u32>) returns (code: Option<string>)
    ensures var k := FirstAccepted(draws);
            if k == |draws| then code == None
            else code.Some? && |code.value| == 6 && AllDigits(code.value) && Value(code.value) == draws[k] % LIMIT
  {
    var i := 0;
    while i < |draws| && draws[i] >= Threshold(LIMIT)
      invariant 0 <= i <= |draws|
      invariant forall k :: 0 <= k < i ==> draws[k] >= Threshold(LIMIT)
    {
      i := i + 1;
    }
    if i == |draws| {
      return None;
    }
    var n := draws[i] % LIMIT;
    MillionIsSixDigits();
    CodeMeans(n, Padded(n, 6));
    return Some(Padded(n, 6));
  }
}
