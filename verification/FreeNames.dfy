/** Numbered names, tried until one is free. */
module FreeNames {
  function Decimal(n: nat): (r: string)
    ensures r != ""
  {
    if n < 10 then [('0' as int + n) as char] else Decimal(n / 10) + [('0' as int + n % 10) as char]
  }

  lemma {:induction false} DecimalHasDigits(n: nat)
    ensures forall c <- Decimal(n) :: '0' <= c <= '9'
  {
    if n >= 10 { DecimalHasDigits(n / 10); }
  }

  lemma {:induction false} DecimalIsInjective(m: nat, n: nat)
    requires Decimal(m) == Decimal(n)
    ensures m == n
  {
    var s, t := Decimal(m), Decimal(n);
    assert s[|s| - 1] == t[|t| - 1];
    assert s[..|s| - 1] == t[..|t| - 1];
    if m < 10 || n < 10 {
      assert m < 10 ==> |s| == 1;
      assert n < 10 ==> |t| == 1;
    } else {
      assert s[..|s| - 1] == Decimal(m / 10) && t[..|t| - 1] == Decimal(n / 10);
      DecimalIsInjective(m / 10, n / 10);
    }
  }

  function Candidate(base: string, suffix: nat): string {
    if suffix == 0 then base else base + "-" + Decimal(suffix)
  }

  lemma CandidatesDiffer(base: string, a: nat, b: nat)
    requires a != b
    ensures Candidate(base, a) != Candidate(base, b)
  {
    if Candidate(base, a) == Candidate(base, b) {
      assert a != 0 ==> |Candidate(base, a)| > |base|;
      assert b != 0 ==> |Candidate(base, b)| > |base|;
      assert a != 0 ==> Candidate(base, a)[|base| + 1..] == Decimal(a);
      assert b != 0 ==> Candidate(base, b)[|base| + 1..] == Decimal(b);
      DecimalIsInjective(a, b);
    }
  }

  /** The first candidate that is not taken (nextSyncRollbackPath, nextBackupPath). */
  method FreeName(files: set<string>, base: string) returns (name: string)
    ensures name !in files && base <= name
  {
    var suffix := 0;
    ghost var tried: set<string> := {};
    while Candidate(base, suffix) in files
      invariant tried <= files
      invariant tried == set k | 0 <= k < suffix :: Candidate(base, k)
      decreases |files - tried|
    {
      ghost var candidate := Candidate(base, suffix);
      assert candidate !in tried by {
        forall k | 0 <= k < suffix ensures Candidate(base, k) != candidate { CandidatesDiffer(base, k, suffix); }
      }
      assert (files - tried) - {candidate} == files - (tried + {candidate});
      tried := tried + {candidate};
      suffix := suffix + 1;
    }
    name := Candidate(base, suffix);
  }
}
