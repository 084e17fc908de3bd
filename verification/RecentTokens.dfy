/** The list of recently used bridge tokens: newest first, one entry per token, at most eight. */
module RecentTokens {
  import opened Prelude

  const MAX_RECENT_TOKENS: nat := 8

  /** `display` stands for name, symbol and decimals, which do not identify a token. */
  datatype Token = Token(chainId: Option<int>, address: string, display: string)

  /** What identifies a token: its chain and its address without regard to case. */
  function Key(t: Token): (Option<int>, string) {
    (t.chainId, Lower(t.address))
  }

  function Without(list: seq<Token>, token: Token): (r: seq<Token>) {
    if list == [] then []
    else if Key(list[0]) != Key(token) then [list[0]] + Without(list[1..], token)
    else Without(list[1..], token)
  }

  function Cut(list: seq<Token>, n: nat): seq<Token> {
    if |list| <= n then list else list[..n]
  }

  function Saved(existing: seq<Token>, token: Token): seq<Token> {
    Cut([token] + Without(existing, token), MAX_RECENT_TOKENS)
  }

  /** Saving into the list in place: filter out the same token, put it first, cut. */
  method SaveRecentToken(existing: seq<Token>, token: Token) returns (updated: seq<Token>)
    ensures updated == Saved(existing, token)
  {
    var filtered: seq<Token> := [];
    for i := 0 to |existing|
      invariant filtered + Without(existing[i..], token) == Without(existing, token)
    {
      assert existing[i..][1..] == existing[i + 1..];
      if Key(existing[i]) != Key(token) {
        filtered := filtered + [existing[i]];
      }
    }
    assert existing[|existing|..] == [];
    updated := [token] + filtered;
    if |updated| > MAX_RECENT_TOKENS {
      updated := updated[..MAX_RECENT_TOKENS];
    }
  }

  /** The stored list after a whole history of saves, starting from nothing. */
  function AfterSaves(history: seq<Token>): seq<Token> {
    if history == [] then [] else Saved(AfterSaves(history[..|history| - 1]), history[|history| - 1])
  }

  // ---------------------------------------------------------------------------
  // Reference: distinct tokens of the history, newest first, never truncated
  // ---------------------------------------------------------------------------

  function Reverse(s: seq<Token>): seq<Token> {
    if s == [] then [] else [s[|s| - 1]] + Reverse(s[..|s| - 1])
  }

  /** Keeps the first occurrence of each key. */
  function FirstOfEachKey(list: seq<Token>): seq<Token> {
    if list == [] then [] else [list[0]] + Without(FirstOfEachKey(list[1..]), list[0])
  }

  ghost predicate DistinctKeys(list: seq<Token>) {
    forall i, j :: 0 <= i < j < |list| ==> Key(list[i]) != Key(list[j])
  }

  lemma {:induction false} WithoutFacts(list: seq<Token>, token: Token)
    ensures var r := Without(list, token);
            && |r| <= |list|
            && (forall t :: t in r <==> t in list && Key(t) != Key(token))
            && (DistinctKeys(list) ==> DistinctKeys(r) && |r| + 1 >= |list|)
  {
    if list != [] {
      WithoutFacts(list[1..], token);
      var r, rest := Without(list, token), Without(list[1..], token);
      if DistinctKeys(list) {
        if Key(list[0]) == Key(token) {
          AbsentKeyKept(list[1..], token);
        }
        forall i, j | 0 <= i < j < |r| ensures Key(r[i]) != Key(r[j]) {
          if r != rest {
            assert r[j] == rest[j - 1] && rest[j - 1] in rest;
          }
        }
      }
    }
  }

  lemma {:induction false} AbsentKeyKept(list: seq<Token>, token: Token)
    requires forall t :: t in list ==> Key(t) != Key(token)
    ensures Without(list, token) == list
  {
    if list != [] {
      AbsentKeyKept(list[1..], token);
    }
  }

  lemma FrontKeepsDistinct(token: Token, list: seq<Token>)
    requires DistinctKeys(list) && forall t :: t in list ==> Key(t) != Key(token)
    ensures DistinctKeys([token] + list)
  {
  }

  lemma {:induction false} FirstOfEachKeyDistinct(list: seq<Token>)
    ensures DistinctKeys(FirstOfEachKey(list))
  {
    hide Key, Without, DistinctKeys;
    if list == [] {
      assert DistinctKeys([]) by { NoKeysClash(); }
    } else {
      var rest := FirstOfEachKey(list[1..]);
      FirstOfEachKeyDistinct(list[1..]);
      WithoutFacts(rest, list[0]);
      FrontKeepsDistinct(list[0], Without(rest, list[0]));
    }
  }

  lemma NoKeysClash()
    ensures DistinctKeys([])
  {
  }

  /** Cutting first and filtering afterwards loses nothing that the cut would keep,
      because filtering a duplicate-free list removes at most one entry. */
  lemma {:induction false} CutThenFilter(list: seq<Token>, token: Token, n: nat)
    requires DistinctKeys(list)
    ensures Cut(Without(Cut(list, n + 1), token), n) == Cut(Without(list, token), n)
  {
    if list != [] && |list| > n + 1 {
      var cut := list[..n + 1];
      if Key(list[0]) == Key(token) {
        assert cut[1..] == list[1..][..n];
        AbsentKeyKept(list[1..], token);
        AbsentKeyKept(cut[1..], token);
      } else if n > 0 {
        CutThenFilter(list[1..], token, n - 1);
        assert cut[1..] == Cut(list[1..], n);
      }
    }
  }

  /** Keeping eight entries at each save agrees with never truncating until the end:
      the list is the first eight distinct tokens of the reversed save history. */
  lemma {:induction false} TruncationCommutes(history: seq<Token>)
    ensures AfterSaves(history) == Cut(FirstOfEachKey(Reverse(history)), MAX_RECENT_TOKENS)
  {
    if history != [] {
      var earlier, token := history[..|history| - 1], history[|history| - 1];
      var all := FirstOfEachKey(Reverse(earlier));
      TruncationCommutes(earlier);
      FirstOfEachKeyDistinct(Reverse(earlier));
      assert Reverse(history)[1..] == Reverse(earlier);
      CutThenFilter(all, token, MAX_RECENT_TOKENS - 1);
      CutAfterFirst(token, Without(Cut(all, MAX_RECENT_TOKENS), token), MAX_RECENT_TOKENS);
      CutAfterFirst(token, Without(all, token), MAX_RECENT_TOKENS);
    }
  }

  lemma CutAfterFirst(token: Token, list: seq<Token>, n: nat)
    requires n > 0
    ensures Cut([token] + list, n) == [token] + Cut(list, n - 1)
  {
  }

  /** t was saved at some point and nothing with its key was saved later. */
  ghost predicate NewestSave(t: Token, history: seq<Token>) {
    exists i :: 0 <= i < |history| && history[i] == t && KeyAbsentAfter(t, history, i)
  }

  ghost predicate KeyAbsentAfter(t: Token, history: seq<Token>, i: nat) {
    forall j :: i < j < |history| ==> Key(history[j]) != Key(t)
  }

  lemma NewestSaveSurvives(t: Token, earlier: seq<Token>, token: Token)
    requires NewestSave(t, earlier) && Key(t) != Key(token)
    ensures NewestSave(t, earlier + [token])
  {
    hide Key;
    var history := earlier + [token];
    var i :| 0 <= i < |earlier| && earlier[i] == t && KeyAbsentAfter(t, earlier, i);
    forall j | i < j < |history| ensures Key(history[j]) != Key(t) {
      if j < |earlier| {
        assert history[j] == earlier[j];
      }
    }
    assert history[i] == t && KeyAbsentAfter(t, history, i);
  }

  /** Every stored entry is the most recent save of its token. */
  lemma {:induction false} StoredEntriesAreNewest(history: seq<Token>)
    ensures forall t :: t in AfterSaves(history) ==> NewestSave(t, history)
  {
    if history != [] {
      var earlier, token := history[..|history| - 1], history[|history| - 1];
      StoredEntriesAreNewest(earlier);
      WithoutFacts(AfterSaves(earlier), token);
      assert history == earlier + [token];
      forall t | t in AfterSaves(history) ensures NewestSave(t, history) {
        hide Key, Without, NewestSave;
        if t in Without(AfterSaves(earlier), token) {
          NewestSaveSurvives(t, earlier, token);
        } else {
          NewestSaveIsLast(token, earlier);
        }
      }
    }
  }

  lemma NewestSaveIsLast(token: Token, earlier: seq<Token>)
    ensures NewestSave(token, earlier + [token])
  {
    var history := earlier + [token];
    assert history[|earlier|] == token && KeyAbsentAfter(token, history, |earlier|);
  }

  /** No token is stored twice. */
  lemma StoredKeysDistinct(history: seq<Token>)
    ensures DistinctKeys(AfterSaves(history)) && |AfterSaves(history)| <= MAX_RECENT_TOKENS
  {
    TruncationCommutes(history);
    FirstOfEachKeyDistinct(Reverse(history));
  }

  // ---------------------------------------------------------------------------
  // In terms of chain and address
  // ---------------------------------------------------------------------------

  /** On the same chain, at the same address without regard to case. */
  predicate SameToken(a: Token, b: Token) {
    a.chainId == b.chainId && Lower(a.address) == Lower(b.address)
  }

  /** Two stored tokens are on different chains or at different addresses. */
  lemma StoredTokensDiffer(history: seq<Token>, i: nat, j: nat)
    requires i < j < |AfterSaves(history)|
    ensures !SameToken(AfterSaves(history)[i], AfterSaves(history)[j])
  {
    hide AfterSaves;
    StoredKeysDistinct(history);
  }

  /** Filtering out a token that occurs once, or not at all. */
  lemma {:induction false} WithoutOne(list: seq<Token>, token: Token) returns (at: nat)
    requires DistinctKeys(list)
    ensures at <= |list| && (at < |list| ==> Key(list[at]) == Key(token))
    ensures forall i :: 0 <= i < |list| && i != at ==> Key(list[i]) != Key(token)
    ensures Without(list, token) == list[..at] + if at < |list| then list[at + 1..] else []
  {
    if list == [] {
      at := 0;
    } else if Key(list[0]) == Key(token) {
      at := 0;
      AbsentKeyKept(list[1..], token);
    } else {
      var rest := WithoutOne(list[1..], token);
      at := rest + 1;
      assert list[..at] == [list[0]] + list[1..][..rest];
    }
  }

  /** Saving puts the token first and drops, besides the token itself, only what no longer fits
      into eight: a stored token of another chain or address stays iff it was among the first
      seven, or the saved token made room before it. */
  lemma SavingKeepsOthers(history: seq<Token>, token: Token, i: nat)
    requires i < |AfterSaves(history)| && !SameToken(AfterSaves(history)[i], token)
    ensures var before, after := AfterSaves(history), AfterSaves(history + [token]);
      && |after| > 0 && after[0] == token
      && (before[i] in after <==> i < 7 || exists j :: 0 <= j < i && SameToken(before[j], token))
  {
    hide Lower, AfterSaves;
    var before := AfterSaves(history);
    OneMoreSave(history, token);
    StoredKeysDistinct(history);
    var at := WithoutOne(before, token);
    var others := Without(before, token);
    var place := if at < i then i - 1 else i;
    assert others[place] == before[i];
    WithoutFacts(before, token);
    KeptIffEarly(others, token, place);
    if j :| 0 <= j < i && SameToken(before[j], token) {
      assert at == j;
    }
  }

  lemma OneMoreSave(history: seq<Token>, token: Token)
    ensures AfterSaves(history + [token]) == Saved(AfterSaves(history), token)
  {
    assert (history + [token])[..|history|] == history;
  }

  lemma KeptIffEarly(others: seq<Token>, token: Token, place: nat)
    requires DistinctKeys(others) && place < |others| && Key(others[place]) != Key(token)
    ensures others[place] in Cut([token] + others, MAX_RECENT_TOKENS) <==> place < 7
  {
    var all := [token] + others;
    assert all[place + 1] == others[place];
    if k :| 0 <= k < |all| && all[k] == others[place] && k != place + 1 {
      assert k > 0 && others[k - 1] == others[place];
    }
  }
}
