/**
 * The three retry-until-unique generators of AbstractGlobalIdServiceBean. Each candidate is
 * checked with isGlobalIdUnique on the object's protocol and authority as they stand.
 *
 * The Java loops have no bound: they run until a candidate passes. Here the random draws and
 * the stored-procedure values are supplied as finite sequences, and each method requires
 * that its loop stops within them (otherwise the Java loop would not return at all).
 */
module Generators {
  import opened Nullable
  import opened JavaStrings
  import opened GlobalIds
  import opened Uniqueness

  /** The check each loop runs: isGlobalIdUnique(new GlobalId(protocol, authority, id)). */
  predicate Unique(reg: Registry, protocol: Option<string>, authority: Option<string>, id: string)
  {
    IsGlobalIdUnique(reg, GlobalId(protocol, authority, id))
  }

  // ---------------------------------------------------------------------------------------
  // generateIdentifierAsRandomString

  /** A value RandomStringUtils.randomAlphanumeric(6) can return. */
  predicate IsRandomDraw(d: string)
  {
    |d| == 6 && forall i :: 0 <= i < 6 ==> IsAsciiAlphanumeric(d[i])
  }

  /** prepend + randomAlphanumeric(6).toUpperCase(). */
  function RandomCandidate(prepend: string, draw: string): string
  {
    prepend + ToUpperCase(draw)
  }

  /** Some supplied draw gives a candidate that passes: the loop returns. */
  ghost predicate RandomStops(reg: Registry, protocol: Option<string>, authority: Option<string>,
                              prepend: string, draws: seq<string>)
  {
    exists k :: 0 <= k < |draws| && Unique(reg, protocol, authority, RandomCandidate(prepend, draws[k]))
  }

  /** `id` is the candidate of the first draw that passes the check. */
  ghost predicate IsRandomResult(reg: Registry, protocol: Option<string>, authority: Option<string>,
                                 prepend: string, draws: seq<string>, id: string)
  {
    exists k :: 0 <= k < |draws|
      && id == RandomCandidate(prepend, draws[k])
      && Unique(reg, protocol, authority, id)
      && forall j :: 0 <= j < k ==> !Unique(reg, protocol, authority, RandomCandidate(prepend, draws[j]))
  }

  /**
   * generateIdentifierAsRandomString: `prepend` followed by six characters of [A-Z0-9], the
   * first candidate for which the uniqueness check returned true.
   */
  method GenerateIdentifierAsRandomString(reg: Registry, protocol: Option<string>, authority: Option<string>,
                                          prepend: string, draws: seq<string>) returns (id: string)
    requires forall k :: 0 <= k < |draws| ==> IsRandomDraw(draws[k])
    requires RandomStops(reg, protocol, authority, prepend, draws)
    ensures IsRandomResult(reg, protocol, authority, prepend, draws, id)
    ensures Unique(reg, protocol, authority, id)
    ensures |id| == |prepend| + 6 && id[..|prepend|] == prepend
    ensures forall i :: |prepend| <= i < |id| ==> IsUpperAlphanumeric(id[i])
  {
    ghost var w :| 0 <= w < |draws| && Unique(reg, protocol, authority, RandomCandidate(prepend, draws[w]));
    var i := 0;
    id := RandomCandidate(prepend, draws[0]);
    while !Unique(reg, protocol, authority, id)
      invariant 0 <= i <= w
      invariant id == RandomCandidate(prepend, draws[i])
      invariant forall j :: 0 <= j < i ==> !Unique(reg, protocol, authority, RandomCandidate(prepend, draws[j]))
      decreases w - i
    {
      i := i + 1;
      id := RandomCandidate(prepend, draws[i]);
    }
    var upper := ToUpperCase(draws[i]);
    assert forall j :: |prepend| <= j < |id| ==> id[j] == upper[j - |prepend|];
  }

  /** Only one string is the first passing candidate. */
  lemma RandomResultDeterministic(reg: Registry, protocol: Option<string>, authority: Option<string>,
                                  prepend: string, draws: seq<string>, id1: string, id2: string)
    requires IsRandomResult(reg, protocol, authority, prepend, draws, id1)
    requires IsRandomResult(reg, protocol, authority, prepend, draws, id2)
    ensures id1 == id2
  {
    var k1 :| 0 <= k1 < |draws| && id1 == RandomCandidate(prepend, draws[k1])
      && Unique(reg, protocol, authority, id1)
      && forall j :: 0 <= j < k1 ==> !Unique(reg, protocol, authority, RandomCandidate(prepend, draws[j]));
    var k2 :| 0 <= k2 < |draws| && id2 == RandomCandidate(prepend, draws[k2])
      && Unique(reg, protocol, authority, id2)
      && forall j :: 0 <= j < k2 ==> !Unique(reg, protocol, authority, RandomCandidate(prepend, draws[j]));
    assert k1 == k2;
  }

  // ---------------------------------------------------------------------------------------
  // generateIdentifierFromStoredProcedureIndependent

  /** The loop stops at a counter value: null, or a value whose candidate passes. */
  ghost predicate IndependentStopsAt(reg: Registry, protocol: Option<string>, authority: Option<string>,
                                     prepend: string, value: Option<string>)
  {
    value.None? || Unique(reg, protocol, authority, prepend + value.value)
  }

  ghost predicate IndependentStops(reg: Registry, protocol: Option<string>, authority: Option<string>,
                                   prepend: string, counter: seq<Option<string>>)
  {
    exists k :: 0 <= k < |counter| && IndependentStopsAt(reg, protocol, authority, prepend, counter[k])
  }

  /**
   * `r` is what the loop returns: walking the counter values, all earlier ones non-null and
   * taken, it is null at the first null value, or prepend + the first value that passes.
   */
  ghost predicate IsIndependentResult(reg: Registry, protocol: Option<string>, authority: Option<string>,
                                      prepend: string, counter: seq<Option<string>>, r: Option<string>)
  {
    exists k :: 0 <= k < |counter|
      && (forall j :: 0 <= j < k ==> !IndependentStopsAt(reg, protocol, authority, prepend, counter[j]))
      && match counter[k]
         case None => r == None
         case Some(v) => r == Some(prepend + v) && Unique(reg, protocol, authority, prepend + v)
  }

  /**
   * generateIdentifierFromStoredProcedureIndependent: null the first time the stored procedure
   * yields null, otherwise prepend + the first value whose candidate passes the check.
   */
  method GenerateIdentifierFromStoredProcedureIndependent(reg: Registry, protocol: Option<string>, authority: Option<string>,
                                                          prepend: string, counter: seq<Option<string>>)
    returns (r: Option<string>)
    requires IndependentStops(reg, protocol, authority, prepend, counter)
    ensures IsIndependentResult(reg, protocol, authority, prepend, counter, r)
    ensures r.Some? ==> Unique(reg, protocol, authority, r.value)
  {
    ghost var w :| 0 <= w < |counter| && IndependentStopsAt(reg, protocol, authority, prepend, counter[w]);
    var i := 0;
    while true
      invariant 0 <= i <= w
      invariant forall j :: 0 <= j < i ==> !IndependentStopsAt(reg, protocol, authority, prepend, counter[j])
      decreases w - i
    {
      var fromStoredProcedure := counter[i];
      if fromStoredProcedure.None? {
        return None;
      }
      var id := prepend + fromStoredProcedure.value;
      if Unique(reg, protocol, authority, id) {
        return Some(id);
      }
      i := i + 1;
    }
  }

  /** The independent generator's outcome is determined by the counter values and the check. */
  lemma IndependentResultDeterministic(reg: Registry, protocol: Option<string>, authority: Option<string>,
                                       prepend: string, counter: seq<Option<string>>, r1: Option<string>, r2: Option<string>)
    requires IsIndependentResult(reg, protocol, authority, prepend, counter, r1)
    requires IsIndependentResult(reg, protocol, authority, prepend, counter, r2)
    ensures r1 == r2
  {
    var k1 :| 0 <= k1 < |counter|
      && (forall j :: 0 <= j < k1 ==> !IndependentStopsAt(reg, protocol, authority, prepend, counter[j]))
      && match counter[k1]
         case None => r1 == None
         case Some(v) => r1 == Some(prepend + v) && Unique(reg, protocol, authority, prepend + v);
    var k2 :| 0 <= k2 < |counter|
      && (forall j :: 0 <= j < k2 ==> !IndependentStopsAt(reg, protocol, authority, prepend, counter[j]))
      && match counter[k2]
         case None => r2 == None
         case Some(v) => r2 == Some(prepend + v) && Unique(reg, protocol, authority, prepend + v);
    assert IndependentStopsAt(reg, protocol, authority, prepend, counter[k1]);
    assert IndependentStopsAt(reg, protocol, authority, prepend, counter[k2]);
    assert k1 == k2;
  }

  // ---------------------------------------------------------------------------------------
  // generateIdentifierFromStoredProcedureDependent

  /** prepend + retVal.toString() for the counter value n. */
  function DependentCandidate(prepend: string, n: nat): string
  {
    prepend + LongToString(n)
  }

  ghost predicate DependentStops(reg: Registry, protocol: Option<string>, authority: Option<string>, prepend: string)
  {
    exists n: nat :: 1 <= n && Unique(reg, protocol, authority, DependentCandidate(prepend, n))
  }

  /** n is the least counter value, from 1 on, whose candidate passes. */
  ghost predicate IsLeastPassingCounter(reg: Registry, protocol: Option<string>, authority: Option<string>,
                                        prepend: string, n: nat)
  {
    && 1 <= n
    && Unique(reg, protocol, authority, DependentCandidate(prepend, n))
    && forall m: nat :: 1 <= m < n ==> !Unique(reg, protocol, authority, DependentCandidate(prepend, m))
  }

  /**
   * generateIdentifierFromStoredProcedureDependent: prepend + decimal(n) for the least n >= 1
   * whose candidate passes the check.
   */
  method GenerateIdentifierFromStoredProcedureDependent(reg: Registry, protocol: Option<string>, authority: Option<string>,
                                                        prepend: string) returns (id: string)
    requires DependentStops(reg, protocol, authority, prepend)
    ensures exists n: nat :: IsLeastPassingCounter(reg, protocol, authority, prepend, n) && id == DependentCandidate(prepend, n)
    ensures Unique(reg, protocol, authority, DependentCandidate(prepend, 1)) ==> id == prepend + "1"
  {
    ghost var w: nat :| 1 <= w && Unique(reg, protocol, authority, DependentCandidate(prepend, w));
    var retVal: nat := 1;
    id := prepend + LongToString(retVal);
    while !Unique(reg, protocol, authority, id)
      invariant 1 <= retVal <= w
      invariant id == DependentCandidate(prepend, retVal)
      invariant forall m: nat :: 1 <= m < retVal ==> !Unique(reg, protocol, authority, DependentCandidate(prepend, m))
      decreases w - retVal
    {
      retVal := retVal + 1;
      id := prepend + LongToString(retVal);
    }
    assert IsLeastPassingCounter(reg, protocol, authority, prepend, retVal);
  }

  /** Distinct counter values are distinct candidates, so no candidate is tried twice. */
  lemma DependentCandidatesDistinct(prepend: string, m: nat, n: nat)
    requires m != n
    ensures DependentCandidate(prepend, m) != DependentCandidate(prepend, n)
  {
    LongToStringInjective(m, n);
    assert DependentCandidate(prepend, m)[|prepend|..] == LongToString(m);
    assert DependentCandidate(prepend, n)[|prepend|..] == LongToString(n);
  }

  /** Only one counter value is the least passing one. */
  lemma LeastPassingCounterUnique(reg: Registry, protocol: Option<string>, authority: Option<string>,
                                  prepend: string, n1: nat, n2: nat)
    requires IsLeastPassingCounter(reg, protocol, authority, prepend, n1)
    requires IsLeastPassingCounter(reg, protocol, authority, prepend, n2)
    ensures n1 == n2
  {
  }
}
