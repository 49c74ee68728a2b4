/** Stage 5 of build_db.py: tracking numbers that are placeholders rather
    than real identifiers ("weak" ones, is_weak) are split off from the
    matches. */
module Classify {
  import opened Text
  import opened Seqs
  import opened Matcher

  /** The placeholder values, in the order weak_stats reports them. */
  const WeakTokens: seq<string> := ["c", "1", "0", "NA", "na", "-", "REDACTED", "[REDACTED]", "TBD-PM-00"]

  /** WEAK_BN_VALUES: the placeholders, lower-cased (WeakBnValuesLowered
      shows this is the lower-casing of WeakTokens). */
  const WeakBnValues: set<string> := {"c", "1", "0", "na", "-", "redacted", "[redacted]", "tbd-pm-00"}

  /** is_weak: the stripped, lower-cased value is one of the placeholders. */
  predicate IsWeak(v: string) {
    Lower(Trim(v)) in WeakBnValues
  }

  lemma WeakBnValuesLowered()
    ensures WeakBnValues == set t | t in WeakTokens :: Lower(t)
  {
    assert Lower("c") == "c" && Lower("1") == "1" && Lower("0") == "0" && Lower("-") == "-";
    assert Lower("na") == "na" && Lower("NA") == "na";
    assert Lower("REDACTED") == "redacted";
    assert Lower("[REDACTED]") == "[redacted]";
    assert Lower("TBD-PM-00") == "tbd-pm-00";
  }

  /** Placeholders are recognised whatever their case and padding. */
  lemma IsWeakZero()
    ensures IsWeak("0")
  {
    var z := "0";
    assert |z| == 1 && z[0] == '0';
    TrimOfTrimmed(z);
    LowerNoUpper(z);
  }

  /** Padding a value with spaces does not change whether it is weak. */
  lemma IsWeakPadded(v: string)
    requires v != [] && !IsSpace(v[0]) && !IsSpace(v[|v| - 1])
    ensures IsWeak([' '] + v + [' ']) <==> IsWeak(v)
  {
    TrimPadded(v);
    TrimOfTrimmed(v);
  }

  lemma IsWeakMixedCase()
    ensures IsWeak("[Redacted]")
  {
    var r := "[Redacted]";
    TrimOfTrimmed(r);
    var l := Lower(r);
    assert l[1] == 'r';
    assert forall i :: 2 <= i < 10 ==> l[i] == r[i];
    assert l == "[redacted]";
  }

  /** A real tracking number is not a placeholder: it has seven characters,
      and no placeholder has. */
  lemma IsWeakRealNumber()
    ensures !IsWeak("abc-123")
  {
    var v := "abc-123";
    assert |v| == 7 && v[0] == 'a' && v[6] == '3';
    TrimOfTrimmed(v);
    assert |Lower(v)| == 7;
    assert forall w :: w in WeakBnValues ==> |w| != 7;
  }

  predicate IsWeakRow(m: MatchRow) {
    IsWeak(m.tracking)
  }

  predicate IsStrongRow(m: MatchRow) {
    !IsWeak(m.tracking)
  }

  /** df_weak */
  function WeakRows(out: seq<MatchRow>): seq<MatchRow> {
    Filter(out, IsWeakRow)
  }

  /** df_strong */
  function StrongRows(out: seq<MatchRow>): seq<MatchRow> {
    Filter(out, IsStrongRow)
  }

  /** df_weak and df_strong partition df_out: every weak row is weak, every
      strong row is not, each row of df_out lands in exactly one of them as
      often as it occurs, and the counts add up. */
  lemma SplitPartition(out: seq<MatchRow>)
    ensures forall m :: m in WeakRows(out) <==> m in out && IsWeak(m.tracking)
    ensures forall m :: m in StrongRows(out) <==> m in out && !IsWeak(m.tracking)
    ensures multiset(WeakRows(out)) + multiset(StrongRows(out)) == multiset(out)
    ensures |WeakRows(out)| + |StrongRows(out)| == |out|
  {
    FilterSplit(out, IsWeakRow, IsStrongRow);
  }
}
