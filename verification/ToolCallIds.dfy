/** Wire ids of tool calls: kept when the dialect allows them, derived from a digest otherwise. */
module ToolCallIds {
  import opened Prelude

  const ATTEMPTS: nat := 1000

  /** Which of the two id rules holds, and the hexadecimal digest of a text. */
  datatype Rule = Rule(mistral: bool, digest: string -> string)

  predicate Alphanumeric(c: char) {
    'A' <= c <= 'Z' || 'a' <= c <= 'z' || '0' <= c <= '9'
  }

  predicate IsHex(c: char) {
    'a' <= c <= 'f' || '0' <= c <= '9'
  }

  predicate Matches(rule: Rule, id: string) {
    if rule.mistral then |id| == 9 && forall i :: 0 <= i < |id| ==> Alphanumeric(id[i])
    else 1 <= |id| <= 64 && forall i :: 0 <= i < |id| ==> Alphanumeric(id[i]) || id[i] == '_' || id[i] == '-'
  }

  /** What is known of the digest: 64 hexadecimal digits. */
  ghost predicate DigestOk(rule: Rule) {
    forall s :: |rule.digest(s)| == 64 && forall i :: 0 <= i < 64 ==> IsHex(rule.digest(s)[i])
  }

  function Decimal(n: nat): string {
    if n < 10 then ["0123456789"[n]] else Decimal(n / 10) + ["0123456789"[n % 10]]
  }

  function Candidate(rule: Rule, id: string, counter: nat): string {
    var digest := rule.digest(if counter == 0 then id else id + ":" + Decimal(counter));
    if rule.mistral then Slice(digest, 9) else Slice("call_" + digest, 64)
  }

  /** The first free candidate from a counter on. */
  function Search(rule: Rule, id: string, occupied: set<string>, counter: nat): Option<string>
    requires counter <= ATTEMPTS
    decreases ATTEMPTS - counter
  {
    if counter == ATTEMPTS then None
    else if Candidate(rule, id, counter) !in occupied then Some(Candidate(rule, id, counter))
    else Search(rule, id, occupied, counter + 1)
  }

  /** The wire id, unless a thousand candidates are taken. */
  function Normalized(rule: Rule, id: string, occupied: set<string>): Option<string> {
    if Matches(rule, id) && id !in occupied then Some(id) else Search(rule, id, occupied, 0)
  }

  method NormalizedToolCallId(rule: Rule, id: string, occupied: set<string>) returns (r: Option<string>)
    ensures r == Normalized(rule, id, occupied)
  {
    if Matches(rule, id) && id !in occupied {
      return Some(id);
    }
    for counter := 0 to ATTEMPTS
      invariant Search(rule, id, occupied, 0) == Search(rule, id, occupied, counter)
    {
      var candidate := Candidate(rule, id, counter);
      if candidate !in occupied {
        return Some(candidate);
      }
    }
    return None;
  }

  lemma CandidateMatches(rule: Rule, id: string, counter: nat)
    requires DigestOk(rule)
    ensures Matches(rule, Candidate(rule, id, counter))
  {}

  lemma {:induction false} SearchFindsFree(rule: Rule, id: string, occupied: set<string>, counter: nat)
    requires counter <= ATTEMPTS && DigestOk(rule)
    ensures var r := Search(rule, id, occupied, counter);
      && (r.Some? ==> r.value !in occupied && Matches(rule, r.value))
      && (r.None? ==> forall k :: counter <= k < ATTEMPTS ==> Candidate(rule, id, k) in occupied)
    decreases ATTEMPTS - counter
  {
    hide Candidate, Matches, DigestOk;
    if counter < ATTEMPTS {
      CandidateMatches(rule, id, counter);
      if Candidate(rule, id, counter) in occupied {
        SearchFindsFree(rule, id, occupied, counter + 1);
      }
    }
  }

  /** A wire id is free and obeys the rule; there is none only when every candidate is taken. */
  lemma NormalizedIsFree(rule: Rule, id: string, occupied: set<string>)
    requires DigestOk(rule)
    ensures var r := Normalized(rule, id, occupied);
      && (r.Some? ==> r.value !in occupied && Matches(rule, r.value))
      && (r.None? ==> forall k :: 0 <= k < ATTEMPTS ==> Candidate(rule, id, k) in occupied)
  {
    SearchFindsFree(rule, id, occupied, 0);
  }

  // ---- The ids in full -----------------------------------------------------------------------------

  /** The code points of digits, capital and small letters. */
  predicate LetterOrDigit(code: int) {
    48 <= code <= 57 || 65 <= code <= 90 || 97 <= code <= 122
  }

  /** Nine letters and digits for Mistral; up to sixty-four letters, digits, underscores and dashes elsewhere. */
  lemma MatchesExactly(rule: Rule, id: string)
    ensures rule.mistral ==> (Matches(rule, id) <==> |id| == 9 && forall i :: 0 <= i < 9 ==> LetterOrDigit(id[i] as int))
    ensures !rule.mistral ==>
              (Matches(rule, id) <==> 1 <= |id| <= 64 && forall i :: 0 <= i < |id| ==> LetterOrDigit(id[i] as int) || id[i] in "_-")
  {}

  /** The first candidate is made from the digest of the id, the later ones from that of the id and a number. */
  lemma CandidateExactly(rule: Rule, id: string, counter: nat)
    requires DigestOk(rule)
    ensures var digest := rule.digest(if counter == 0 then id else id + ":" + Decimal(counter));
      Candidate(rule, id, counter) == if rule.mistral then digest[..9] else "call_" + digest[..59]
  {
    var digest := rule.digest(if counter == 0 then id else id + ":" + Decimal(counter));
    assert ("call_" + digest)[..64] == "call_" + digest[..59];
  }

  /** An id that obeys the rule and is free is kept; otherwise the first free of a thousand candidates is taken. */
  lemma NormalizedExactly(rule: Rule, id: string, occupied: set<string>)
    ensures Matches(rule, id) && id !in occupied ==> Normalized(rule, id, occupied) == Some(id)
    ensures !(Matches(rule, id) && id !in occupied) ==>
              if forall k :: 0 <= k < 1000 ==> Candidate(rule, id, k) in occupied then Normalized(rule, id, occupied).None?
              else exists k :: 0 <= k < 1000 && Normalized(rule, id, occupied) == Some(Candidate(rule, id, k))
                               && Candidate(rule, id, k) !in occupied && forall j :: 0 <= j < k ==> Candidate(rule, id, j) in occupied
  {
    hide Candidate, Matches;
    SearchExactly(rule, id, occupied, 0);
  }

  lemma {:induction false} SearchExactly(rule: Rule, id: string, occupied: set<string>, counter: nat)
    requires counter <= 1000
    ensures if forall k :: counter <= k < 1000 ==> Candidate(rule, id, k) in occupied then Search(rule, id, occupied, counter).None?
            else exists k :: counter <= k < 1000 && Search(rule, id, occupied, counter) == Some(Candidate(rule, id, k))
                             && Candidate(rule, id, k) !in occupied && forall j :: counter <= j < k ==> Candidate(rule, id, j) in occupied
    decreases 1000 - counter
  {
    hide Candidate;
    if counter < 1000 && Candidate(rule, id, counter) in occupied {
      SearchExactly(rule, id, occupied, counter + 1);
    }
  }

  /** Decimal digits, the last of them first. */
  lemma DecimalExactly(n: nat, d: nat)
    requires d < 10
    ensures Decimal(d) == [('0' as int + d) as char]
    ensures n > 0 ==> Decimal(10 * n + d) == Decimal(n) + [('0' as int + d) as char]
  {
    assert "0123456789"[d] == ('0' as int + d) as char;
  }
}
