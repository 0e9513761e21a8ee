/**
 * The signature the crash-reporter daemon keeps for every rich core it has
 * handled: the crashed binary, the terminating signal, the core's size and
 * a size band of roughly +/-5% around it, plus a repeat counter.
 */
module RichCore {
  import opened Common

  /**
   * The four fields parsed from a rich-core file name, in the order the
   * shared parser returns them: 0 application, 1 IMEI fragment, 2 signal
   * number, 3 PID.
   */
  datatype CrashInfo = CrashInfo(application: string, imei: string, signal: string, pid: string)

  /** One entry of the daemon's handled-cores history. */
  datatype HandledRichCore = HandledRichCore(
    binaryName: string,
    signalNumber: int,
    size: nat,
    lowerLimit: int,
    upperLimit: int,
    count: int)

  /**
   * The signature of a newly found core, given what its file name parses
   * to and its size on disk. The band is 95% and 105% of the size, each
   * rounded down, and it brackets the size itself.
   */
  function NewHandledRichCore(info: CrashInfo, size: nat): (c: HandledRichCore)
    ensures c.binaryName == info.application && c.signalNumber == ToInt(info.signal)
    ensures c.size == size && c.count == 0
    ensures c.lowerLimit * 100 <= size * 95 < (c.lowerLimit + 1) * 100
    ensures c.upperLimit * 100 <= size * 105 < (c.upperLimit + 1) * 100
    ensures 0 <= c.lowerLimit <= size <= c.upperLimit
    ensures Matches(c, c)
  {
    HandledRichCore(info.application, ToInt(info.signal), size, (size * 95) / 100, (size * 105) / 100, 0)
  }

  /**
   * "Same crash": the stored entry's binary and signal equal the other's,
   * and the other's size lies inside the STORED entry's band. Only the
   * left operand's band is used.
   */
  predicate Matches(stored: HandledRichCore, other: HandledRichCore) {
    stored.binaryName == other.binaryName && stored.signalNumber == other.signalNumber &&
    other.size >= stored.lowerLimit && other.size <= stored.upperLimit
  }

  /** The repeat counter plays no part in matching. */
  lemma MatchesIgnoresCount(stored: HandledRichCore, other: HandledRichCore, k: int, m: int)
    ensures Matches(stored.(count := k), other.(count := m)) == Matches(stored, other)
  {
  }

  /**
   * In whole bytes, a core of size `b` falls in the band of a first-seen
   * core of size `a` exactly when 100*b <= 105*a and 100*b > 95*a - 100:
   * the upper bound is exactly +5%, the lower bound is 95% rounded down.
   */
  lemma {:induction false} MatchesBySize(first: CrashInfo, a: nat, later: CrashInfo, b: nat)
    ensures Matches(NewHandledRichCore(first, a), NewHandledRichCore(later, b)) <==>
      first.application == later.application && ToInt(first.signal) == ToInt(later.signal) &&
      100 * b <= 105 * a && 100 * b > 95 * a - 100
  {
    var c := NewHandledRichCore(first, a);
    if b <= c.upperLimit {
      assert 100 * b <= 100 * c.upperLimit <= 105 * a;
    }
    if 100 * b <= 105 * a {
      assert 100 * b < 100 * (c.upperLimit + 1);
    }
    if b >= c.lowerLimit {
      assert 100 * b >= 100 * c.lowerLimit > 95 * a - 100;
    }
    if 100 * b > 95 * a - 100 {
      assert 100 * c.lowerLimit <= 95 * a < 100 * b + 100;
      assert c.lowerLimit < b + 1;
    }
  }

  /** Because the lower limit rounds down, a small core 10% smaller still matches. */
  lemma LowerBandRoundsDown(info: CrashInfo)
    ensures Matches(NewHandledRichCore(info, 10), NewHandledRichCore(info, 9))
    ensures 9 * 100 < 10 * 95
  {
  }

  /** The relation is not symmetric: a 95-byte core matches a 100-byte entry, not the reverse. */
  lemma MatchesNotSymmetric(info: CrashInfo)
    ensures Matches(NewHandledRichCore(info, 100), NewHandledRichCore(info, 95))
    ensures !Matches(NewHandledRichCore(info, 95), NewHandledRichCore(info, 100))
  {
  }

  /** The relation is not transitive: sizes that drift by 5% at each step chain-match. */
  lemma MatchesNotTransitive(info: CrashInfo)
    ensures Matches(NewHandledRichCore(info, 100), NewHandledRichCore(info, 105))
    ensures Matches(NewHandledRichCore(info, 105), NewHandledRichCore(info, 110))
    ensures !Matches(NewHandledRichCore(info, 100), NewHandledRichCore(info, 110))
  {
  }
}
