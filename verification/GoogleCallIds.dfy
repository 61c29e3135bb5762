/** Call ids in a Google stream: kept while they are new, generated otherwise. */
module GoogleCallIds {
  import opened ToolCallIds

  function Generated(n: nat): string {
    "google_call_" + Decimal(n)
  }

  lemma {:induction false} DecimalIsInjective(m: nat, n: nat)
    requires Decimal(m) == Decimal(n)
    ensures m == n
    decreases m
  {
    var digits := "0123456789";
    var a, b := Decimal(m), Decimal(n);
    assert a[|a| - 1] == digits[m % 10] && b[|b| - 1] == digits[n % 10];
    DigitsDiffer(m % 10, n % 10);
    DecimalLength(m);
    DecimalLength(n);
    if m >= 10 && n >= 10 {
      assert Decimal(m / 10) == a[..|a| - 1] && Decimal(n / 10) == b[..|b| - 1];
      DecimalIsInjective(m / 10, n / 10);
    }
  }

  lemma DigitsDiffer(i: nat, j: nat)
    requires i < 10 && j < 10 && "0123456789"[i] == "0123456789"[j]
    ensures i == j
  {}

  lemma DecimalLength(n: nat)
    ensures |Decimal(n)| >= 1 && (|Decimal(n)| == 1 <==> n < 10)
  {}

  lemma GeneratedIsInjective(m: nat, n: nat)
    requires Generated(m) == Generated(n)
    ensures m == n
  {
    assert Decimal(m) == Generated(m)[|"google_call_"|..] && Decimal(n) == Generated(n)[|"google_call_"|..];
    DecimalIsInjective(m, n);
  }

  /** Used ids that the counter may still run into. */
  ghost function Ahead(used: set<string>, n: nat): set<string> {
    set id | id in used && exists k: nat :: k >= n && id == Generated(k)
  }

  lemma AheadShrinks(used: set<string>, n: nat)
    requires Generated(n) in used
    ensures Ahead(used, n + 1) < Ahead(used, n) && |Ahead(used, n + 1)| < |Ahead(used, n)|
  {
    assert Generated(n) in Ahead(used, n);
    if Generated(n) in Ahead(used, n + 1) {
      var k: nat :| k >= n + 1 && Generated(n) == Generated(k);
      GeneratedIsInjective(n, k);
    }
    assert Ahead(used, n) == Ahead(used, n) - Ahead(used, n + 1) + Ahead(used, n + 1);
  }

  /** The first free number after the counter. The used set is finite, so there is one. */
  function NextFree(used: set<string>, n: nat): (m: nat)
    ensures m >= n && Generated(m) !in used && forall k :: n <= k < m ==> Generated(k) in used
    decreases |Ahead(used, n)|
  {
    if Generated(n) !in used then n else (AheadShrinks(used, n); NextFree(used, n + 1))
  }

  datatype Ids = Ids(used: set<string>, generated: nat)

  /** The id of the next call, and what is known after it. */
  function Assign(ids: Ids, given: string): (string, Ids) {
    if given != "" && given !in ids.used then (given, Ids(ids.used + {given}, ids.generated))
    else
      var n := NextFree(ids.used, ids.generated + 1);
      (Generated(n), Ids(ids.used + {Generated(n)}, n))
  }

  method AssignCallId(ids: Ids, given: string) returns (callId: string, after: Ids)
    ensures (callId, after) == Assign(ids, given)
  {
    var generated := ids.generated;
    callId := given;
    if callId == "" || callId in ids.used {
      generated := generated + 1;
      callId := Generated(generated);
      while callId in ids.used
        invariant callId == Generated(generated)
        invariant NextFree(ids.used, ids.generated + 1) == NextFree(ids.used, generated)
        decreases |Ahead(ids.used, generated)|
      {
        AheadShrinks(ids.used, generated);
        generated := generated + 1;
        callId := Generated(generated);
      }
    }
    after := Ids(ids.used + {callId}, generated);
  }

  /** The ids of a stream's calls, in order. */
  function AssignAll(ids: Ids, given: seq<string>): seq<string>
    decreases |given|
  {
    if given == [] then []
    else
      var (id, after) := Assign(ids, given[0]);
      [id] + AssignAll(after, given[1..])
  }

  /**
   Whatever ids the provider gives, repeats or omits: all ids of a stream differ, and none
   was used before; a given id is kept at its first appearance among the ids so far.
   */
  lemma {:induction false} CallIdsAreDistinct(ids: Ids, given: seq<string>)
    ensures var out := AssignAll(ids, given);
      && |out| == |given|
      && (forall i :: 0 <= i < |out| ==> out[i] !in ids.used)
      && (forall i, j :: 0 <= i < j < |out| ==> out[i] != out[j])
      && (forall i :: 0 <= i < |given| && given[i] != "" && given[i] !in ids.used && given[i] !in out[..i] ==> out[i] == given[i])
    decreases |given|
  {
    hide NextFree, Generated;
    if given != [] {
      var (id, after) := Assign(ids, given[0]);
      CallIdsAreDistinct(after, given[1..]);
      var out, rest := AssignAll(ids, given), AssignAll(after, given[1..]);
      forall i | 0 <= i < |given| && given[i] != "" && given[i] !in ids.used && given[i] !in out[..i]
        ensures out[i] == given[i]
      {
        if i > 0 {
          assert out[..i] == [id] + rest[..i - 1];
          assert given[1..][i - 1] == given[i] && given[i] !in rest[..i - 1];
        }
      }
    }
  }

  /** A new given id is kept; any other call gets the first free number after the last one given out. */
  lemma AssignExactly(ids: Ids, given: string)
    ensures var (id, after) := Assign(ids, given);
      if given != "" && given !in ids.used then id == given && after == Ids(ids.used + {given}, ids.generated)
      else
        && after.generated > ids.generated && id == "google_call_" + Decimal(after.generated) && id !in ids.used
        && after.used == ids.used + {id}
        && forall k: nat :: ids.generated < k < after.generated ==> "google_call_" + Decimal(k) in ids.used
  {
    forall k: nat ensures Generated(k) == "google_call_" + Decimal(k) {}
  }
}
