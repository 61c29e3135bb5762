/** Redacting credential values from provider messages, one after the other, on changed text. */
module Redaction {
  import opened Prelude

  const MARK := "[REDACTED]"
  const WORD := "REDACTED"
  const MAX_LENGTH: nat := 2000

  predicate OccursAt(s: string, x: string, i: int) {
    0 <= i && i + |x| <= |s| && s[i..i + |x|] == x
  }

  ghost predicate Contains(s: string, x: string) {
    exists i :: OccursAt(s, x, i)
  }

  /** Splitting at every occurrence, from the left, and joining with the mark. */
  function Replace(s: string, x: string): string
    requires x != ""
    decreases |s|
  {
    if |s| < |x| then s
    else if s[..|x|] == x then MARK + Replace(s[|x|..], x)
    else [s[0]] + Replace(s[1..], x)
  }

  /** The non-empty values, each once, where it first occurs. */
  function Usable(values: seq<string>): seq<string> {
    if values == [] then []
    else
      var init, last := Usable(values[..|values| - 1]), values[|values| - 1];
      if last == "" || last in init then init else init + [last]
  }

  function Insert(x: string, s: seq<string>): seq<string> {
    if s == [] || |s[0]| <= |x| then [x] + s else [s[0]] + Insert(x, s[1..])
  }

  /** Longest first; values of equal length keep their order. */
  function LongestFirst(s: seq<string>): seq<string> {
    if s == [] then [] else Insert(s[0], LongestFirst(s[1..]))
  }

  ghost predicate AllUsable(secrets: seq<string>) {
    forall i :: 0 <= i < |secrets| ==> secrets[i] != ""
  }

  function RedactAll(s: string, secrets: seq<string>): string
    requires AllUsable(secrets)
    decreases |secrets|
  {
    if secrets == [] then s else RedactAll(Replace(s, secrets[0]), secrets[1..])
  }

  /** What is shown of a message. */
  function Safe(message: string, values: seq<string>): string {
    SecretsAreUsable(values);
    Slice(RedactAll(message, LongestFirst(Usable(values))), MAX_LENGTH)
  }

  method SafeProviderMessage(message: string, secretValues: seq<string>) returns (safe: string)
    ensures safe == Safe(message, secretValues)
  {
    safe := message;
    var uniqueSecrets := LongestFirst(Usable(secretValues));
    SecretsAreUsable(secretValues);
    for i := 0 to |uniqueSecrets|
      invariant RedactAll(message, uniqueSecrets) == RedactAll(safe, uniqueSecrets[i..])
    {
      assert uniqueSecrets[i..][0] == uniqueSecrets[i] && uniqueSecrets[i..][1..] == uniqueSecrets[i + 1..];
      safe := Replace(safe, uniqueSecrets[i]);
    }
    safe := Slice(safe, MAX_LENGTH);
  }

  // ---- The list of secrets -------------------------------------------------------------------

  lemma {:induction false} UsableKeeps(values: seq<string>)
    ensures forall x :: x in Usable(values) <==> x in values && x != ""
    ensures forall i, j :: 0 <= i < j < |Usable(values)| ==> Usable(values)[i] != Usable(values)[j]
    decreases |values|
  {
    if values != [] {
      var init, last := values[..|values| - 1], values[|values| - 1];
      UsableKeeps(init);
      assert values == init + [last];
    }
  }

  predicate Ordered(s: seq<string>) {
    forall i, j :: 0 <= i < j < |s| ==> |s[i]| >= |s[j]|
  }

  lemma {:induction false} InsertKeeps(x: string, s: seq<string>)
    ensures multiset(Insert(x, s)) == multiset(s) + multiset{x}
    ensures forall y :: y in Insert(x, s) <==> y == x || y in s
  {
    if s != [] && |s[0]| > |x| {
      InsertKeeps(x, s[1..]);
      assert s == [s[0]] + s[1..];
    }
  }

  lemma {:induction false} InsertOrders(x: string, s: seq<string>)
    requires Ordered(s)
    ensures Ordered(Insert(x, s))
  {
    if s != [] && |s[0]| > |x| {
      var r := Insert(x, s[1..]);
      InsertOrders(x, s[1..]);
      InsertKeeps(x, s[1..]);
      assert forall k :: 0 <= k < |r| ==> r[k] in r;
    }
  }

  lemma {:induction false} LongestFirstKeeps(s: seq<string>)
    ensures multiset(LongestFirst(s)) == multiset(s) && Ordered(LongestFirst(s))
    ensures forall y :: y in LongestFirst(s) <==> y in s
  {
    hide Ordered;
    if s == [] {
      NothingToOrder();
    } else {
      LongestFirstKeeps(s[1..]);
      InsertKeeps(s[0], LongestFirst(s[1..]));
      InsertOrders(s[0], LongestFirst(s[1..]));
      assert s == [s[0]] + s[1..];
    }
  }

  lemma NothingToOrder()
    ensures Ordered([])
  {}

  lemma SecretsAreUsable(values: seq<string>)
    ensures AllUsable(LongestFirst(Usable(values)))
    ensures forall x :: x in LongestFirst(Usable(values)) <==> x in values && x != ""
  {
    hide LongestFirst, Usable;
    UsableKeeps(values);
    LongestFirstKeeps(Usable(values));
    var s := LongestFirst(Usable(values));
    assert forall i :: 0 <= i < |s| ==> s[i] in s;
  }

  // ---- One replacement -----------------------------------------------------------------------

  predicate BracketFree(x: string) {
    '[' !in x && ']' !in x
  }

  /**
   A usable secret that cannot lie across the mark's edges: neither contains the other, no
   start of the secret ends the mark, and no end of it begins the mark.
   */
  ghost predicate Harmless(x: string) {
    && x != "" && !Contains(MARK, x) && !Contains(x, MARK)
    && (forall n :: 0 < n <= |x| && n <= |MARK| ==> x[..n] != MARK[|MARK| - n..])
    && (forall n :: 0 < n <= |x| && n <= |MARK| ==> x[|x| - n..] != MARK[..n])
  }

  predicate StartEndsMark(x: string, n: nat) {
    0 < n <= |x| && n <= |MARK| && x[..n] == MARK[|MARK| - n..]
  }

  predicate EndStartsMark(x: string, n: nat) {
    0 < n <= |x| && n <= |MARK| && x[|x| - n..] == MARK[..n]
  }

  lemma ContainsHead(s: string, x: string)
    requires x != ""
    ensures Contains(s, x) <==> OccursAt(s, x, 0) || (s != "" && Contains(s[1..], x))
  {
    if i :| OccursAt(s, x, i) && i > 0 {
      assert OccursAt(s[1..], x, i - 1);
    }
    if s != "" && Contains(s[1..], x) {
      ContainsTail(s, x, 1);
    }
  }

  lemma ContainsTail(s: string, x: string, n: nat)
    requires n <= |s| && Contains(s[n..], x)
    ensures Contains(s, x)
  {
    var i :| OccursAt(s[n..], x, i);
    assert s[n + i..n + i + |x|] == s[n..][i..i + |x|];
    assert OccursAt(s, x, n + i);
  }

  /** Where the end of a harmless text, from position n on, starts the replaced text, it was copied. */
  lemma {:induction false} CopiedStart(s: string, y: string, x: string, n: nat)
    requires y != "" && Harmless(x) && n <= |x| && x[n..] <= Replace(s, y)
    ensures x[n..] <= s
    decreases |s|
  {
    hide Harmless;
    if |s| >= |y| && n < |x| {
      if s[..|y|] == y {
        NotAtTheMark(x, n, Replace(s[|y|..], y));
      } else {
        assert x[n] == Replace(s, y)[0];
        assert Replace(s, y)[1..] == Replace(s[1..], y) && x[n..][1..] == x[n + 1..];
        CopiedStart(s[1..], y, x, n + 1);
        assert x[n..] == [s[0]] + x[n + 1..];
      }
    }
  }

  /** No end of a harmless text starts where the mark does. */
  lemma NotAtTheMark(x: string, n: nat, rest: string)
    requires Harmless(x) && n < |x|
    ensures !(x[n..] <= MARK + rest)
  {
    if x[n..] <= MARK + rest {
      StartAtMark(x, n, rest);
    }
  }

  lemma StartAtMark(x: string, n: nat, rest: string)
    requires n < |x| && x[n..] <= MARK + rest
    ensures Contains(x, MARK) || (|x| - n <= |MARK| && x[n..] == MARK[..|x| - n])
  {
    var all, m := MARK + rest, |x| - n;
    if m <= |MARK| {
      assert all[..m] == MARK[..m];
    } else {
      assert x[n..n + |MARK|] == all[..|MARK|] == MARK;
      assert OccursAt(x, MARK, n);
    }
  }

  /** An occurrence of a harmless text is not across the mark, so it is after it. */
  lemma OccurrencePastMark(rest: string, x: string, i: int)
    requires Harmless(x) && OccursAt(MARK + rest, x, i)
    ensures Contains(rest, x)
  {
    OccurrenceAtMark(rest, x, i);
  }

  lemma OccurrenceAtMark(rest: string, x: string, i: int)
    requires OccursAt(MARK + rest, x, i)
    ensures Contains(rest, x) || Contains(MARK, x) || (0 < |MARK| - i <= |x| && i >= 0 && x[..|MARK| - i] == MARK[i..])
  {
    var all := MARK + rest;
    if i >= |MARK| {
      assert all[i..i + |x|] == rest[i - |MARK|..i - |MARK| + |x|];
      assert OccursAt(rest, x, i - |MARK|);
    } else if i + |x| <= |MARK| {
      assert MARK[i..i + |x|] == all[i..i + |x|];
      assert OccursAt(MARK, x, i);
    } else {
      assert x[..|MARK| - i] == all[i..i + |x|][..|MARK| - i] == all[i..|MARK|] == MARK[i..];
    }
  }

  lemma ContainsCharacter(s: string, y: string, c: char)
    requires c in y && Contains(s, y)
    ensures c in s
  {
    var i :| OccursAt(s, y, i);
    assert c in s[i..i + |y|];
  }

  /** A bracket-free secret that does not occur in the mark's word is harmless. */
  lemma BracketFreeIsHarmless(x: string)
    requires x != "" && BracketFree(x) && !Contains(WORD, x)
    ensures Harmless(x)
  {
    MarkContainsWordOnly(x);
    assert MARK[0] == '[' && MARK[9] == ']';
    if Contains(x, MARK) {
      ContainsCharacter(x, MARK, '[');
    }
    forall n | 0 < n <= |x| && n <= 10 ensures x[..n] != MARK[10 - n..] && x[|x| - n..] != MARK[..n] {
      assert MARK[10 - n..][n - 1] == ']' && x[..n][n - 1] in x;
      assert MARK[..n][0] == '[' && x[|x| - n..][0] in x;
    }
  }

  /** After replacing `y`, no harmless text occurs that did not occur before; and `y` is gone if it is harmless. */
  lemma {:induction false} ReplaceAddsNothing(s: string, y: string, x: string)
    requires y != "" && Harmless(x) && (x == y || !Contains(s, x))
    ensures !Contains(Replace(s, y), x)
    decreases |s|
  {
    var r := Replace(s, y);
    if |s| < |y| {
    } else if s[..|y|] == y {
      var rest := s[|y|..];
      if x != y && Contains(rest, x) {
        ContainsTail(s, x, |y|);
      }
      ReplaceAddsNothing(rest, y, x);
      if i :| OccursAt(r, x, i) {
        OccurrencePastMark(Replace(rest, y), x, i);
      }
    } else {
      ContainsHead(s, x);
      ReplaceAddsNothing(s[1..], y, x);
      ContainsHead(r, x);
      assert r[1..] == Replace(s[1..], y);
      if OccursAt(r, x, 0) {
        assert x <= r && x[0..] == x;
        CopiedStart(s, y, x, 0);
      }
    }
  }

  lemma {:induction false} ReplaceWithoutOccurrence(s: string, y: string)
    requires y != "" && !Contains(s, y)
    ensures Replace(s, y) == s
    decreases |s|
  {
    if |s| >= |y| {
      ContainsHead(s, y);
      ReplaceWithoutOccurrence(s[1..], y);
    }
  }

  // ---- All replacements ----------------------------------------------------------------------

  lemma {:induction false} RedactionRemoves(s: string, secrets: seq<string>, x: string)
    requires AllUsable(secrets)
    requires Harmless(x) && (x in secrets || !Contains(s, x))
    ensures !Contains(RedactAll(s, secrets), x)
    decreases |secrets|
  {
    hide Contains, Replace;
    if secrets != [] {
      if x == secrets[0] || !Contains(s, x) {
        ReplaceAddsNothing(s, secrets[0], x);
      } else {
        assert x in secrets[1..];
      }
      RedactionRemoves(Replace(s, secrets[0]), secrets[1..], x);
    }
  }

  /** No message with any of these secrets shows one of them. */
  ghost predicate Complete(values: seq<string>) {
    forall message, x :: x in values && x != "" ==> !Contains(Safe(message, values), x)
  }

  lemma SliceAddsNothing(s: string, n: nat, x: string)
    ensures Contains(Slice(s, n), x) ==> Contains(s, x)
  {
    if i :| OccursAt(Slice(s, n), x, i) {
      assert s[i..i + |x|] == Slice(s, n)[i..i + |x|];
      assert OccursAt(s, x, i);
    }
  }

  /** A harmless secret is never in the bounded output, whatever the message and the other secrets are. */
  lemma HarmlessSecretIsHidden(message: string, values: seq<string>, x: string)
    requires x in values && Harmless(x)
    ensures !Contains(Safe(message, values), x)
  {
    hide Contains, Replace;
    var secrets := LongestFirst(Usable(values));
    SecretsAreUsable(values);
    RedactionRemoves(message, secrets, x);
    SliceAddsNothing(RedactAll(message, secrets), MAX_LENGTH, x);
  }

  /** If every secret is harmless, the bounded output contains none of them, whatever the message. */
  lemma RedactionIsComplete(values: seq<string>)
    requires forall x :: x in values && x != "" ==> Harmless(x)
    ensures Complete(values)
  {
    hide Contains, Safe, Harmless;
    forall message, x | x in values && x != "" ensures !Contains(Safe(message, values), x) {
      HarmlessSecretIsHidden(message, values, x);
    }
  }

  lemma {:induction false} NothingToRedact(s: string, secrets: seq<string>)
    requires AllUsable(secrets) && forall i :: 0 <= i < |secrets| ==> !Contains(s, secrets[i])
    ensures RedactAll(s, secrets) == s
    decreases |secrets|
  {
    hide Contains, Replace;
    if secrets != [] {
      ReplaceWithoutOccurrence(s, secrets[0]);
      NothingToRedact(s, secrets[1..]);
    }
  }

  /** A message without secrets is only bounded. */
  lemma OtherTextIsKept(message: string, values: seq<string>)
    requires forall x :: x in values && x != "" ==> !Contains(message, x)
    ensures Safe(message, values) == Slice(message, MAX_LENGTH)
  {
    hide Contains;
    SecretsAreUsable(values);
    NothingToRedact(message, LongestFirst(Usable(values)));
  }

  // ---- When it is not complete -----------------------------------------------------------------

  lemma {:induction false} RedactAllJoins(s: string, a: seq<string>, b: seq<string>)
    requires AllUsable(a) && AllUsable(b)
    ensures AllUsable(a + b)
    ensures RedactAll(s, a + b) == RedactAll(RedactAll(s, a), b)
    decreases |a|
  {
    hide Replace;
    if a == [] {
      assert a + b == b;
    } else {
      assert (a + b)[1..] == a[1..] + b;
      RedactAllJoins(Replace(s, a[0]), a[1..], b);
    }
  }

  lemma OwnReplacement(x: string)
    requires x != ""
    ensures Replace(x, x) == MARK
  {}

  lemma EndsOfOccurrence(s: string, x: string, i: int)
    requires x != "" && OccursAt(s, x, i)
    ensures s[i] in x && s[i + |x| - 1] in x
  {
    assert x[0] == s[i] && x[|x| - 1] == s[i + |x| - 1];
  }

  lemma OccursInPart(s: string, lo: nat, hi: nat, x: string, i: int)
    requires lo <= i && i + |x| <= hi <= |s|
    ensures OccursAt(s, x, i) <==> OccursAt(s[lo..hi], x, i - lo)
  {
    var part, there := s[lo..hi][i - lo..i - lo + |x|], s[i..i + |x|];
    assert |part| == |there| && forall k :: 0 <= k < |x| ==> part[k] == there[k];
    assert part == there;
  }

  lemma MarkContainsWordOnly(x: string)
    requires x != "" && BracketFree(x)
    ensures Contains(MARK, x) <==> Contains(WORD, x)
  {
    hide BracketFree;
    var m := MARK;
    assert m[0] == '[' && m[9] == ']' && m[1..9] == WORD;
    if i :| OccursAt(m, x, i) {
      EndsOfOccurrence(m, x, i);
      NoBrackets(x, m[i]);
      NoBrackets(x, m[i + |x| - 1]);
      OccursInPart(m, 1, 9, x, i);
    }
    if i :| OccursAt(WORD, x, i) {
      OccursInPart(m, 1, 9, x, i + 1);
    }
  }

  lemma NoBrackets(x: string, c: char)
    requires BracketFree(x) && c in x
    ensures c != '[' && c != ']'
  {}

  lemma LongerDoesNotOccur(x: string, y: string)
    requires |y| >= |x| && y != x
    ensures !Contains(x, y)
  {}

  /** Longer secrets leave a message alone that is itself a secret. */
  lemma LongerSecretsDoNothing(secrets: seq<string>, x: string)
    requires AllUsable(secrets) && forall i :: 0 <= i < |secrets| ==> |secrets[i]| >= |x| && secrets[i] != x
    ensures RedactAll(x, secrets) == x
  {
    forall i | 0 <= i < |secrets| ensures !Contains(x, secrets[i]) {
      LongerDoesNotOccur(x, secrets[i]);
    }
    NothingToRedact(x, secrets);
  }

  /** The mark stays as it is when no secret occurs in its word. */
  lemma MarkStays(secrets: seq<string>)
    requires AllUsable(secrets) && forall i :: 0 <= i < |secrets| ==> BracketFree(secrets[i]) && !Contains(WORD, secrets[i])
    ensures RedactAll(MARK, secrets) == MARK
  {
    hide Contains;
    forall i | 0 <= i < |secrets| ensures !Contains(MARK, secrets[i]) {
      MarkContainsWordOnly(secrets[i]);
    }
    NothingToRedact(MARK, secrets);
  }

  /** The last secret that occurs in the mark's word survives when it is the whole message. */
  lemma SecretSurvives(secrets: seq<string>, k: nat)
    requires k < |secrets| && Ordered(secrets)
    requires AllUsable(secrets) && forall i :: 0 <= i < |secrets| ==> BracketFree(secrets[i])
    requires forall i, j :: 0 <= i < j < |secrets| ==> secrets[i] != secrets[j]
    requires Contains(WORD, secrets[k]) && forall j :: k < j < |secrets| ==> !Contains(WORD, secrets[j])
    ensures RedactAll(secrets[k], secrets) == MARK && Contains(MARK, secrets[k])
  {
    hide Contains, Replace, BracketFree, RedactAll, AllUsable, Ordered;
    var x, before, after := secrets[k], secrets[..k], secrets[k + 1..];
    PartsOf(secrets, k);
    LongerSecretsDoNothing(before, x);
    OwnReplacement(x);
    MarkStays(after);
    RedactAllJoins(x, before, [x] + after);
    FirstOf(x, x, after);
    MarkContainsWordOnly(x);
  }

  lemma PartsOf(secrets: seq<string>, k: nat)
    requires k < |secrets| && Ordered(secrets) && AllUsable(secrets)
    requires forall i, j :: 0 <= i < j < |secrets| ==> secrets[i] != secrets[j]
    ensures secrets == secrets[..k] + ([secrets[k]] + secrets[k + 1..]) && secrets[k] != ""
    ensures AllUsable(secrets[..k]) && AllUsable(secrets[k + 1..]) && AllUsable([secrets[k]] + secrets[k + 1..])
    ensures forall i :: 0 <= i < k ==> |secrets[..k][i]| >= |secrets[k]| && secrets[..k][i] != secrets[k]
  {}

  lemma FirstOf(s: string, x: string, rest: seq<string>)
    requires AllUsable([x] + rest)
    ensures AllUsable(rest) && x != "" && RedactAll(s, [x] + rest) == RedactAll(Replace(s, x), rest)
  {
    hide Replace;
    assert ([x] + rest)[0] == x && ([x] + rest)[1..] == rest;
    assert forall i :: 0 <= i < |rest| ==> rest[i] == ([x] + rest)[i + 1];
  }

  lemma {:induction false} LastOffender(secrets: seq<string>, n: nat) returns (k: nat)
    requires n <= |secrets| && exists i :: 0 <= i < n && Contains(WORD, secrets[i])
    ensures k < n && Contains(WORD, secrets[k]) && forall j :: k < j < n ==> !Contains(WORD, secrets[j])
    decreases n
  {
    hide Contains;
    if Contains(WORD, secrets[n - 1]) {
      k := n - 1;
    } else {
      k := LastOffender(secrets, n - 1);
    }
  }

  /** For secrets without brackets: redaction is complete if and only if none of them occurs in the mark's word. */
  lemma CompleteExactly(values: seq<string>)
    requires forall x :: x in values ==> BracketFree(x)
    ensures Complete(values) <==> forall x :: x in values && x != "" ==> !Contains(WORD, x)
  {
    hide Contains, Safe, BracketFree, Harmless;
    if forall x :: x in values && x != "" ==> !Contains(WORD, x) {
      forall x | x in values && x != "" ensures Harmless(x) {
        BracketFreeIsHarmless(x);
      }
      RedactionIsComplete(values);
    } else {
      OffenderIsShown(values);
    }
  }

  lemma OffenderIsShown(values: seq<string>)
    requires forall x :: x in values ==> BracketFree(x)
    requires exists x :: x in values && x != "" && Contains(WORD, x)
    ensures !Complete(values)
  {
    hide Contains, Safe, BracketFree, RedactAll;
    var secrets := LongestFirst(Usable(values));
    SecretsAreUsable(values);
    UsableKeeps(values);
    LongestFirstKeeps(Usable(values));
    var x :| x in values && x != "" && Contains(WORD, x);
    var i :| 0 <= i < |secrets| && secrets[i] == x;
    var k := LastOffender(secrets, |secrets|);
    forall a, b | 0 <= a < b < |secrets| ensures secrets[a] != secrets[b] {
      PermutationStaysDistinct(Usable(values), secrets, a, b);
    }
    SecretSurvives(secrets, k);
    SurvivorIsShown(values, secrets[k]);
    assert secrets[k] in values && secrets[k] != "";
  }

  lemma SurvivorIsShown(values: seq<string>, x: string)
    requires AllUsable(LongestFirst(Usable(values)))
    requires RedactAll(x, LongestFirst(Usable(values))) == MARK && Contains(MARK, x)
    ensures Contains(Safe(x, values), x)
  {}

  /** With brackets a secret can be put together by the replacement of another, shorter one. */
  lemma BracketSecretIsAssembled()
    ensures Contains(Safe("zzab", ["zz[", "ab"]), "zz[")
  {
    hide Contains, Safe, Replace;
    var values, m, shown := ["zz[", "ab"], "zzab", "zz[REDACTED]";
    TwoSecrets();
    assert AllUsable(values) && AllUsable(["ab"]) && AllUsable([]);
    assert Replace(m, "zz[") == m by { FirstPassChangesNothing(); }
    assert Replace(m, "ab") == shown by { SecondPassReplaces(); }
    assert values == ["zz["] + ["ab"] && ["ab"] == ["ab"] + [];
    FirstOf(m, "zz[", ["ab"]);
    FirstOf(m, "ab", []);
    ShownAsIs(m, values, shown);
    assert shown[0..3] == "zz[" && OccursAt(shown, "zz[", 0);
    OccurrenceIsContained(shown, "zz[", 0);
  }

  lemma OccurrenceIsContained(s: string, x: string, i: int)
    requires OccursAt(s, x, i)
    ensures Contains(s, x)
  {}

  lemma ShownAsIs(m: string, values: seq<string>, shown: string)
    requires LongestFirst(Usable(values)) == values && AllUsable(values)
    requires RedactAll(m, values) == shown && |shown| <= MAX_LENGTH
    ensures Safe(m, values) == shown
  {}

  lemma TwoSecrets()
    ensures LongestFirst(Usable(["zz[", "ab"])) == ["zz[", "ab"]
  {}

  lemma FirstPassChangesNothing()
    ensures Replace("zzab", "zz[") == "zzab"
  {
    var m := "zzab";
    assert m[..3][2] == 'a' && m[1..][..3][1] == 'a';
    assert Replace(m[1..], "zz[") == m[1..];
  }

  lemma SecondPassReplaces()
    ensures Replace("zzab", "ab") == "zz[REDACTED]"
  {
    var m := "zzab";
    assert m[..2][0] == 'z' && m[1..][..2][0] == 'z' && m[1..][1..] == "ab";
    OwnReplacement("ab");
    assert Replace(m[1..], "ab") == "z" + MARK;
  }

  // ---- Exactly which secrets are hidden in any company -----------------------------------------

  /** Some message and company of secrets show this one. */
  ghost predicate CanBeShown(x: string) {
    exists message: string, values: seq<string> :: x in values && Contains(Safe(message, values), x)
  }

  lemma {:induction false} UnusedBelow(x: string, n: nat) returns (code: nat)
    requires |x| < n <= 0xD800
    ensures code < n && code as char !in x
    decreases n
  {
    var last := (n - 1) as char;
    if last !in x {
      code := n - 1;
    } else {
      var i :| 0 <= i < |x| && x[i] == last;
      var rest := x[..i] + x[i + 1..];
      code := UnusedBelow(rest, n - 1);
      assert forall k :: 0 <= k < |x| && k != i ==> x[k] in rest by {
        assert forall k :: 0 <= k < i ==> x[k] == rest[k];
        assert forall k :: i < k < |x| ==> x[k] == rest[k - 1];
      }
    }
  }

  /** With a one-character secret that does not occur in x. */
  lemma TwoInOrder(x: string, c: char)
    requires |x| > 1
    ensures LongestFirst(Usable([x, [c]])) == [x, [c]]
  {
    assert [x, [c]][..1] == [x] && [x][..0] == [];
    assert Usable([x]) == [x];
    assert [x, [c]][1..] == [[c]];
    assert LongestFirst([[c]]) == [[c]];
  }

  lemma {:induction false} ReplaceOne(s: string, c: char, t: string)
    requires c !in s && c !in t
    ensures Replace(s + [c] + t, [c]) == s + MARK + t
    decreases |s|
  {
    var all, x := s + [c] + t, [c];
    if s == [] {
      assert all[..1] == x && all[1..] == t;
      NotIn(t, c);
      ReplaceWithoutOccurrence(t, x);
    } else {
      assert all[..1][0] == s[0] && all[1..] == s[1..] + [c] + t;
      ReplaceOne(s[1..], c, t);
      assert [s[0]] + (s[1..] + MARK + t) == s + MARK + t;
    }
  }

  lemma NotIn(t: string, c: char)
    requires c !in t
    ensures !Contains(t, [c])
  {
    if Contains(t, [c]) {
      ContainsCharacter(t, [c], c);
    }
  }

  /** The mark can be set between any two texts that have no room for x around one other character. */
  lemma ShownAround(x: string, c: char, s: string, t: string)
    requires |x| > 1 && c !in s && c !in t && !Contains(s + [c] + t, x)
    requires Contains(Slice(s + MARK + t, MAX_LENGTH), x)
    ensures CanBeShown(x)
  {
    hide Contains, Replace;
    var message, values := s + [c] + t, [x, [c]];
    TwoInOrder(x, c);
    assert AllUsable(values) && AllUsable([[c]]) && AllUsable([]);
    ReplaceWithoutOccurrence(message, x);
    ReplaceOne(s, c, t);
    assert values == [x] + [[c]] && [[c]] == [[c]] + [];
    FirstOf(message, x, [[c]]);
    FirstOf(message, [c], []);
    assert Safe(message, values) == Slice(s + MARK + t, MAX_LENGTH);
  }

  lemma ShownInMark(x: string)
    requires x != "" && Contains(MARK, x)
    ensures CanBeShown(x)
  {
    hide Contains, Replace;
    assert [x][..0] == [] && [x][1..] == [];
    assert Usable([x]) == [x] && LongestFirst([x]) == [x];
    OwnReplacement(x);
    assert RedactAll(x, [x]) == MARK;
    SurvivorIsShown([x], x);
    assert x in [x];
  }

  lemma ContainedInShorter(text: string, x: string)
    requires |text| <= |x| && Contains(text, x)
    ensures text == x
  {
    var i :| OccursAt(text, x, i);
    assert text == text[i..i + |x|];
  }

  /** A text with a character that x does not have contains x only if it is longer. */
  lemma NoRoom(text: string, x: string, c: char)
    requires |text| <= |x| && c in text && c !in x
    ensures !Contains(text, x)
  {
    if Contains(text, x) {
      ContainedInShorter(text, x);
    }
  }

  lemma ShownWithMarkInside(x: string, c: char, i: int)
    requires OccursAt(x, MARK, i) && |x| <= MAX_LENGTH && c !in x
    ensures CanBeShown(x)
  {
    var s, t := x[..i], x[i + |MARK|..];
    assert x == s + MARK + t;
    NoRoom(s + [c] + t, x, c);
    assert x[0..|x|] == x && OccursAt(x, x, 0);
    OccurrenceIsContained(x, x, 0);
    ShownAround(x, c, s, t);
  }

  lemma ShownBehindMark(x: string, c: char, n: nat)
    requires 0 < n < |x| && n <= |MARK| && x[..n] == MARK[|MARK| - n..] && |x| <= MAX_LENGTH - |MARK| && c !in x
    ensures CanBeShown(x)
  {
    var t := x[n..];
    var out := "" + MARK + t;
    NoRoom("" + [c] + t, x, c);
    assert out[|MARK| - n..|MARK| - n + |x|] == x[..n] + t == x;
    OccurrenceIsContained(out, x, |MARK| - n);
    ShownAround(x, c, "", t);
  }

  lemma ShownBeforeMark(x: string, c: char, n: nat)
    requires 0 < n < |x| && n <= |MARK| && x[|x| - n..] == MARK[..n] && |x| <= MAX_LENGTH - |MARK| && c !in x
    ensures CanBeShown(x)
  {
    var s := x[..|x| - n];
    var out := s + MARK + "";
    NoRoom(s + [c] + "", x, c);
    assert out[0..|x|] == s + x[|x| - n..] == x;
    OccurrenceIsContained(out, x, 0);
    ShownAround(x, c, s, "");
  }

  /** A text that starts or ends the mark is in it. */
  lemma EndsAreInMark(x: string)
    requires x <= MARK || (|x| <= |MARK| && x == MARK[|MARK| - |x|..])
    ensures Contains(MARK, x)
  {
    if x <= MARK {
      assert OccursAt(MARK, x, 0);
    } else {
      assert OccursAt(MARK, x, |MARK| - |x|);
    }
  }

  /**
   For every secret that leaves room for the mark within the bound: it is hidden in every
   message and any company of other secrets if and only if it is harmless.
   */
  lemma HiddenExactly(x: string)
    requires x != "" && |x| <= MAX_LENGTH - |MARK|
    ensures !CanBeShown(x) <==> Harmless(x)
  {
    if Harmless(x) {
      hide Harmless, Safe, Contains;
      forall message: string, values: seq<string> | x in values ensures !Contains(Safe(message, values), x) {
        HarmlessSecretIsHidden(message, values, x);
      }
    } else {
      HarmfulIsShown(x);
    }
  }

  lemma HarmfulIsShown(x: string)
    requires x != "" && |x| <= MAX_LENGTH - |MARK| && !Harmless(x)
    ensures CanBeShown(x)
  {
    hide CanBeShown, Contains, OccursAt, StartEndsMark, EndStartsMark;
    var code := UnusedBelow(x, |x| + 1);
    var c := code as char;
    WaysToHarm(x);
    if Contains(MARK, x) {
      ShownInMark(x);
    } else if Contains(x, MARK) {
      var i := Occurrence(x, MARK);
      ShownWithMarkInside(x, c, i);
    } else if n: nat :| StartEndsMark(x, n) {
      NotTheWhole(x, n);
      ShownBehindMark(x, c, n);
    } else {
      var n: nat :| EndStartsMark(x, n);
      NotTheWhole(x, n);
      ShownBeforeMark(x, c, n);
    }
  }

  lemma Occurrence(s: string, x: string) returns (i: int)
    requires Contains(s, x)
    ensures OccursAt(s, x, i)
  {
    i :| OccursAt(s, x, i);
  }

  lemma WaysToHarm(x: string)
    requires x != "" && !Harmless(x)
    ensures Contains(MARK, x) || Contains(x, MARK) || (exists n: nat :: StartEndsMark(x, n)) || (exists n: nat :: EndStartsMark(x, n))
  {
    hide Contains;
    if n :| 0 < n <= |x| && n <= |MARK| && x[..n] == MARK[|MARK| - n..] {
      assert StartEndsMark(x, n);
    } else if n :| 0 < n <= |x| && n <= |MARK| && x[|x| - n..] == MARK[..n] {
      assert EndStartsMark(x, n);
    }
  }

  /** A secret that is not in the mark is longer than what it shares with an end of it. */
  lemma NotTheWhole(x: string, n: nat)
    requires (StartEndsMark(x, n) || EndStartsMark(x, n)) && !Contains(MARK, x)
    ensures 0 < n < |x| && n <= |MARK|
    ensures StartEndsMark(x, n) ==> x[..n] == MARK[|MARK| - n..]
    ensures EndStartsMark(x, n) ==> x[|x| - n..] == MARK[..n]
  {
    if n == |x| {
      assert x[..n] == x && x[|x| - n..] == x;
      EndsAreInMark(x);
    }
  }

  // ---- The replacement in full -----------------------------------------------------------------------

  lemma OccursOneLater(s: string, x: string, i: nat)
    requires s != ""
    ensures OccursAt(s[1..], x, i) <==> OccursAt(s, x, i + 1)
  {
    if i + 1 + |x| <= |s| {
      assert s[1..][i..i + |x|] == s[i + 1..i + 1 + |x|];
    }
  }

  lemma ReplaceHere(s: string, x: string)
    requires x != "" && OccursAt(s, x, 0)
    ensures Replace(s, x) == "[REDACTED]" + Replace(s[|x|..], x)
  {}

  lemma ReplaceLater(s: string, x: string)
    requires x != "" && s != "" && !OccursAt(s, x, 0)
    ensures Replace(s, x) == [s[0]] + Replace(s[1..], x)
  {}

  /** The first occurrence of a secret becomes the mark, and then the rest of the text is treated alike. */
  lemma {:induction false} FirstOccurrenceIsReplaced(s: string, x: string, k: nat)
    requires x != "" && OccursAt(s, x, k) && forall i: nat :: i < k ==> !OccursAt(s, x, i)
    ensures Replace(s, x) == s[..k] + "[REDACTED]" + Replace(s[k + |x|..], x)
    decreases k
  {
    hide Replace;
    var mark := "[REDACTED]";
    if k == 0 {
      ReplaceHere(s, x);
      assert s[..0] + mark == mark;
    } else {
      assert !OccursAt(s, x, 0) && k + |x| <= |s|;
      hide OccursAt;
      forall i: nat ensures OccursAt(s[1..], x, i) <==> OccursAt(s, x, i + 1) {
        OccursOneLater(s, x, i);
      }
      ReplaceLater(s, x);
      FirstOccurrenceIsReplaced(s[1..], x, k - 1);
      assert s[1..][k - 1 + |x|..] == s[k + |x|..];
      var rest := Replace(s[k + |x|..], x);
      assert [s[0]] + (s[1..][..k - 1] + mark + rest) == s[..k] + mark + rest;
    }
  }

  /** At most two thousand characters are shown, and they are the first ones. */
  lemma ShownIsBounded(message: string, values: seq<string>)
    ensures |Safe(message, values)| <= 2000 && AllUsable(LongestFirst(Usable(values)))
    ensures var all := RedactAll(message, LongestFirst(Usable(values))); Safe(message, values) == if |all| <= 2000 then all else all[..2000]
  {
    SecretsAreUsable(values);
  }

  /** The secrets of one length, in order. */
  function OfLength(s: seq<string>, n: nat): seq<string> {
    if s == [] then [] else (if |s[0]| == n then [s[0]] else []) + OfLength(s[1..], n)
  }

  lemma {:induction false} InsertFirst(x: string, s: seq<string>, n: nat)
    ensures OfLength(Insert(x, s), n) == (if |x| == n then [x] else []) + OfLength(s, n)
  {
    if s != [] && |s[0]| > |x| {
      InsertFirst(x, s[1..], n);
    }
  }

  /** Secrets of the same length are replaced in the order in which they are given. */
  lemma {:induction false} OrderIsStable(s: seq<string>, n: nat)
    ensures OfLength(LongestFirst(s), n) == OfLength(s, n)
  {
    if s != [] {
      OrderIsStable(s[1..], n);
      InsertFirst(s[0], LongestFirst(s[1..]), n);
    }
  }

  /** A value counts where it is first given. */
  lemma UsableExactly(values: seq<string>, x: string)
    ensures Usable(values + [x]) == if x == "" || x in values then Usable(values) else Usable(values) + [x]
  {
    assert (values + [x])[..|values|] == values;
    UsableKeeps(values);
  }
}
