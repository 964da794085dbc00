/** Splitting a token stream into message spans at delimiter tokens, jumping over skip regions. */
module TokenSpans {
  import opened Wrappers

  datatype Role = UNKNOWN | SYSTEM | ASSISTANT | USER | TOOL

  type Token = int

  datatype Delimiter = Delimiter(role: Role, tokens: seq<Token>)

  // A region of tokens that is content whatever it holds.
  datatype Skip = Skip(start: nat, length: nat)

  datatype Span = Span(role: Role, pos: nat, len: nat)

  datatype Match = Match(role: Role, pos: nat)

  // An ordered map from starts to lengths: its entries in order.
  predicate Ordered(skips: seq<Skip>) {
    forall i, j :: 0 <= i < j < |skips| ==> skips[i].start < skips[j].start
  }

  // ---------- Which positions begin a message ----------

  predicate MatchesAt(d: Delimiter, tokens: seq<Token>, i: nat) {
    i + |d.tokens| <= |tokens| && tokens[i..i + |d.tokens|] == d.tokens
  }

  // The role of the first listed delimiter that matches at `i`.
  function RoleAt(delimiters: seq<Delimiter>, tokens: seq<Token>, i: nat): (r: Option<Role>)
    ensures r.Some? <==> exists d :: d in delimiters && MatchesAt(d, tokens, i)
  {
    if delimiters == [] then None
    else if MatchesAt(delimiters[0], tokens, i) then Some(delimiters[0].role)
    else RoleAt(delimiters[1..], tokens, i)
  }

  // Of the delimiters that match at `i`, the one listed first is number `k`.
  ghost predicate FirstMatch(delimiters: seq<Delimiter>, tokens: seq<Token>, i: nat, k: nat) {
    && k < |delimiters| && MatchesAt(delimiters[k], tokens, i)
    && forall j :: 0 <= j < k ==> !MatchesAt(delimiters[j], tokens, i)
  }

  // A role is the role of the first listed delimiter that matches.
  lemma {:induction false} RoleIsFirst(delimiters: seq<Delimiter>, tokens: seq<Token>, i: nat, k: nat)
    requires FirstMatch(delimiters, tokens, i, k)
    ensures RoleAt(delimiters, tokens, i) == Some(delimiters[k].role)
  {
    hide MatchesAt;
    if k > 0 {
      assert !MatchesAt(delimiters[0], tokens, i);
      RoleIsFirst(delimiters[1..], tokens, i, k - 1);
    }
  }

  predicate InSkip(skips: seq<Skip>, i: nat) {
    exists k :: 0 <= k < |skips| && skips[k].start <= i < skips[k].start + skips[k].length
  }

  predicate Disjoint(skips: seq<Skip>) {
    forall i, j :: 0 <= i < j < |skips| ==> skips[i].start + skips[i].length <= skips[j].start
  }

  // The skips that take effect: once a skip begins inside an earlier one it is never reached,
  // and it blocks all later ones.
  function Effective(skips: seq<Skip>, from: nat): (r: seq<Skip>)
    ensures |r| <= |skips| && r == skips[..|r|]
  {
    if skips == [] || skips[0].start < from then []
    else
      var rest := Effective(skips[1..], skips[0].start + skips[0].length);
      assert skips[..1 + |rest|] == [skips[0]] + skips[1..][..|rest|];
      [skips[0]] + rest
  }

  // All skips take effect exactly when they are disjoint.
  lemma {:induction false} EffectiveDisjoint(skips: seq<Skip>, from: nat)
    requires Ordered(skips)
    ensures Effective(skips, from) == skips <==> Disjoint(skips) && (skips != [] ==> from <= skips[0].start)
  {
    if skips != [] && from <= skips[0].start {
      var tail, end := skips[1..], skips[0].start + skips[0].length;
      EffectiveDisjoint(tail, end);
      assert skips == [skips[0]] + tail;
      assert Effective(skips, from) == skips <==> Effective(tail, end) == tail by {
        assert Effective(skips, from) == [skips[0]] + Effective(tail, end);
        assert ([skips[0]] + Effective(tail, end))[1..] == Effective(tail, end);
      }
      DisjointCons(skips);
    }
  }

  // Exactly which skips take effect: those up to which every skip begins where the one before it has ended.
  lemma {:induction false} EffectiveExact(skips: seq<Skip>, from: nat, i: nat)
    requires i < |skips|
    ensures i < |Effective(skips, from)| <==>
              (from <= skips[0].start
               && forall k :: 0 <= k < i ==> skips[k].start + skips[k].length <= skips[k + 1].start)
    decreases i
  {
    if i > 0 && from <= skips[0].start {
      var tail, end := skips[1..], skips[0].start + skips[0].length;
      EffectiveExact(tail, end, i - 1);
      assert forall k :: 0 <= k < |tail| ==> tail[k] == skips[k + 1];
      if end <= tail[0].start && forall k :: 0 <= k < i - 1 ==> tail[k].start + tail[k].length <= tail[k + 1].start {
        forall k | 0 <= k < i
          ensures skips[k].start + skips[k].length <= skips[k + 1].start
        {
          assert k > 0 ==> tail[k - 1] == skips[k] && tail[k] == skips[k + 1];
        }
      }
    }
  }

  // A skip inside another one stops all later ones: the delimiter at position 4 is found although it is skipped.
  lemma OverlapExample()
    ensures var skips, user, tokens := [Skip(0, 3), Skip(1, 1), Skip(4, 1)], [Delimiter(USER, [7])], [0, 0, 0, 0, 7];
            && Ordered(skips) && InSkip(skips, 4) && Effective(skips, 0) == [Skip(0, 3)]
            && Begins(user, tokens, Effective(skips, 0), 4) && !Begins(user, tokens, skips, 4)
  {
    var skips, user, tokens := [Skip(0, 3), Skip(1, 1), Skip(4, 1)], [Delimiter(USER, [7])], [0, 0, 0, 0, 7];
    assert skips[2].start <= 4 < skips[2].start + skips[2].length;
    assert skips[1..][0] == Skip(1, 1);
    assert Effective(skips[1..], 3) == [] && Effective(skips, 0) == [skips[0]] + [];
    assert tokens[4..5] == [7];
    assert MatchesAt(user[0], tokens, 4);
  }

  lemma DisjointCons(skips: seq<Skip>)
    requires skips != [] && Ordered(skips)
    ensures Disjoint(skips)
       <==> Disjoint(skips[1..]) && (|skips| > 1 ==> skips[0].start + skips[0].length <= skips[1].start)
  {
    var tail := skips[1..];
    if Disjoint(tail) && (|skips| > 1 ==> skips[0].start + skips[0].length <= skips[1].start) {
      forall i, j | 0 <= i < j < |skips|
        ensures skips[i].start + skips[i].length <= skips[j].start
      {
        if i > 0 {
          assert tail[i - 1] == skips[i] && tail[j - 1] == skips[j];
        } else {
          assert skips[1].start <= skips[j].start;
        }
      }
    }
  }

  predicate Begins(delimiters: seq<Delimiter>, tokens: seq<Token>, skips: seq<Skip>, i: nat) {
    !InSkip(skips, i) && RoleAt(delimiters, tokens, i).Some?
  }

  // The matches at positions below `n`, in order.
  function MatchesBelow(delimiters: seq<Delimiter>, tokens: seq<Token>, skips: seq<Skip>, n: nat): seq<Match> {
    if n == 0 then []
    else
      MatchesBelow(delimiters, tokens, skips, n - 1)
      + if Begins(delimiters, tokens, skips, n - 1) then [Match(RoleAt(delimiters, tokens, n - 1).value, n - 1)] else []
  }

  lemma {:induction false} NoMatchesBetween(delimiters: seq<Delimiter>, tokens: seq<Token>, skips: seq<Skip>, m: nat,
                                            n: nat)
    requires m <= n && forall i :: m <= i < n ==> InSkip(skips, i)
    ensures MatchesBelow(delimiters, tokens, skips, n) == MatchesBelow(delimiters, tokens, skips, m)
    decreases n
  {
    if m < n {
      NoMatchesBetween(delimiters, tokens, skips, m, n - 1);
    }
  }

  // ---------- Splitting ----------

  // The role at a position, by the list alone.
  lemma RoleMeans(delimiters: seq<Delimiter>, tokens: seq<Token>, i: nat)
    ensures forall k: nat :: FirstMatch(delimiters, tokens, i, k) ==>
                               RoleAt(delimiters, tokens, i) == Some(delimiters[k].role)
    ensures RoleAt(delimiters, tokens, i) == None ==>
              forall k :: 0 <= k < |delimiters| ==> !MatchesAt(delimiters[k], tokens, i)
  {
    hide MatchesAt;
    forall k: nat | FirstMatch(delimiters, tokens, i, k)
      ensures RoleAt(delimiters, tokens, i) == Some(delimiters[k].role)
    {
      RoleIsFirst(delimiters, tokens, i, k);
    }
    forall k | 0 <= k < |delimiters| && MatchesAt(delimiters[k], tokens, i)
      ensures RoleAt(delimiters, tokens, i).Some?
    {
      assert delimiters[k] in delimiters;
    }
  }

  lemma RoleStep(delimiters: seq<Delimiter>, tokens: seq<Token>, i: nat, k: nat)
    requires k < |delimiters|
    ensures RoleAt(delimiters[k..], tokens, i)
         == if MatchesAt(delimiters[k], tokens, i) then Some(delimiters[k].role)
            else RoleAt(delimiters[k + 1..], tokens, i)
  {
    hide MatchesAt;
    assert delimiters[k..][0] == delimiters[k] && delimiters[k..][1..] == delimiters[k + 1..];
  }

  method FindRole(delimiters: seq<Delimiter>, tokens: seq<Token>, i: nat) returns (r: Option<Role>)
    requires i <= |tokens|
    ensures r == RoleAt(delimiters, tokens, i)
    ensures forall k: nat :: FirstMatch(delimiters, tokens, i, k) ==> r == Some(delimiters[k].role)
    ensures r == None ==> forall k :: 0 <= k < |delimiters| ==> !MatchesAt(delimiters[k], tokens, i)
  {
    hide RoleAt, FirstMatch;
    RoleMeans(delimiters, tokens, i);
    r := None;
    assert delimiters[0..] == delimiters;
    for k := 0 to |delimiters|
      invariant RoleAt(delimiters, tokens, i) == RoleAt(delimiters[k..], tokens, i)
      invariant r == None
    {
      var d := delimiters[k];
      RoleStep(delimiters, tokens, i, k);
      if i + |d.tokens| > |tokens| {
        continue;
      }
      if d.tokens == tokens[i..i + |d.tokens|] {
        return Some(d.role);
      }
    }
    NoRole(tokens, i);
    assert delimiters[|delimiters|..] == [];
  }

  lemma NoRole(tokens: seq<Token>, i: nat)
    ensures RoleAt([], tokens, i) == None
  {
  }

  // What the scan knows at position `i` with the next skip `k`: passed skips lie behind, the next
  // effective one still ahead.
  ghost predicate Scanned(skips: seq<Skip>, k: nat, i: nat) {
    && k <= |skips| && Effective(skips, 0) == skips[..k] + Effective(skips[k..], i)
    && (forall j :: 0 <= j < k ==> skips[j].start + skips[j].length <= i)
    && (forall j :: 0 <= j < k ==> skips[j].start <= i)
  }

  lemma ScanStarts(delimiters: seq<Delimiter>, tokens: seq<Token>, skips: seq<Skip>)
    ensures Scanned(skips, 0, 0) && MatchesBelow(delimiters, tokens, Effective(skips, 0), 0) == []
  {
    assert skips[0..] == skips;
  }

  method FindMatches(delimiters: seq<Delimiter>, tokens: seq<Token>, skips: seq<Skip>) returns (matches: seq<Match>)
    requires Ordered(skips)
    ensures matches == MatchesBelow(delimiters, tokens, Effective(skips, 0), |tokens|)
  {
    ScanStarts(delimiters, tokens, skips);
    hide MatchesBelow, Effective, RoleAt, InSkip, Scanned;
    matches := [];
    var skip := 0;
    var i := 0;
    ghost var effective := Effective(skips, 0);
    while i < |tokens|
      invariant skip <= |skips| && Scanned(skips, skip, i)
      invariant matches == MatchesBelow(delimiters, tokens, effective, if i <= |tokens| then i else |tokens|)
      decreases |tokens| - i, |skips| - skip
    {
      if skip < |skips| && i == skips[skip].start {
        PassSkip(delimiters, tokens, skips, skip, i);
        i := i + skips[skip].length;
        skip := skip + 1;
        continue;
      }
      var role := FindRole(delimiters, tokens, i);
      PassToken(delimiters, tokens, skips, skip, i);
      if role.Some? {
        matches := matches + [Match(role.value, i)];
      }
      i := i + 1;
    }
  }

  lemma PassSkip(delimiters: seq<Delimiter>, tokens: seq<Token>, skips: seq<Skip>, k: nat, i: nat)
    requires k < |skips| && Scanned(skips, k, i) && i == skips[k].start && i < |tokens|
    ensures Scanned(skips, k + 1, i + skips[k].length)
    ensures var end := i + skips[k].length;
            var n := if end <= |tokens| then end else |tokens|;
            MatchesBelow(delimiters, tokens, Effective(skips, 0), n)
                == MatchesBelow(delimiters, tokens, Effective(skips, 0), i)
  {
    hide MatchesBelow;
    var effective, end := Effective(skips, 0), i + skips[k].length;
    assert skips[k..][1..] == skips[k + 1..];
    assert Effective(skips[k..], i) == [skips[k]] + Effective(skips[k + 1..], end);
    assert skips[..k] + [skips[k]] == skips[..k + 1];
    assert skips[..k] + ([skips[k]] + Effective(skips[k + 1..], end))
        == skips[..k + 1] + Effective(skips[k + 1..], end);
    hide Effective;
    assert effective[k] == skips[k];
    var n := if end <= |tokens| then end else |tokens|;
    forall p | i <= p < n
      ensures InSkip(effective, p)
    {
      assert effective[k].start <= p < effective[k].start + effective[k].length;
    }
    NoMatchesBetween(delimiters, tokens, effective, i, n);
  }

  lemma PassToken(delimiters: seq<Delimiter>, tokens: seq<Token>, skips: seq<Skip>, k: nat, i: nat)
    requires Ordered(skips) && Scanned(skips, k, i) && i < |tokens|
    requires k < |skips| ==> i != skips[k].start
    ensures Scanned(skips, k, i + 1)
    ensures MatchesBelow(delimiters, tokens, Effective(skips, 0), i + 1)
         == MatchesBelow(delimiters, tokens, Effective(skips, 0), i)
            + if RoleAt(delimiters, tokens, i).Some? then [Match(RoleAt(delimiters, tokens, i).value, i)] else []
  {
    hide RoleAt;
    var effective := Effective(skips, 0);
    assert Effective(skips[k..], i) == Effective(skips[k..], i + 1);
    forall j | 0 <= j < |effective|
      ensures !(effective[j].start <= i < effective[j].start + effective[j].length)
    {
      if j >= k {
        assert k < |skips| && Effective(skips[k..], i) != [];
        assert skips[k].start > i && skips[k].start <= skips[j].start;
        assert effective[j] == skips[j];
      } else {
        assert effective[j] == skips[j];
      }
    }
    assert !InSkip(effective, i);
  }

  function EndOf(matches: seq<Match>, n: nat, j: nat): nat
    requires j < |matches|
  {
    if j + 1 < |matches| then matches[j + 1].pos else n
  }

  // The spans between consecutive matches, the last one to the end of the stream.
  function SpansOf(matches: seq<Match>, n: nat): (r: seq<Span>)
    requires Increasing(matches, n)
    ensures |r| == |matches|
    ensures forall j :: 0 <= j < |r| ==>
              r[j].role == matches[j].role && r[j].pos == matches[j].pos && r[j].pos + r[j].len == EndOf(matches, n, j)
  {
    seq(|matches|, j requires 0 <= j < |matches| =>
      Span(matches[j].role, matches[j].pos, EndOf(matches, n, j) - matches[j].pos))
  }

  predicate Increasing(matches: seq<Match>, n: nat) {
    (forall i :: 0 <= i < |matches| ==> matches[i].pos < n)
    && forall i, j :: 0 <= i < j < |matches| ==> matches[i].pos < matches[j].pos
  }

  lemma {:induction false} MatchesIncreasing(delimiters: seq<Delimiter>, tokens: seq<Token>, skips: seq<Skip>, n: nat)
    ensures Increasing(MatchesBelow(delimiters, tokens, skips, n), n)
  {
    hide Begins;
    if n > 0 {
      MatchesIncreasing(delimiters, tokens, skips, n - 1);
    }
  }

  method Split(delimiters: seq<Delimiter>, tokens: seq<Token>, skips: seq<Skip>) returns (spans: seq<Span>)
    requires Ordered(skips)
    ensures Increasing(MatchesBelow(delimiters, tokens, Effective(skips, 0), |tokens|), |tokens|)
    ensures spans == SpansOf(MatchesBelow(delimiters, tokens, Effective(skips, 0), |tokens|), |tokens|)
  {
    hide MatchesBelow, Effective;
    var found := FindMatches(delimiters, tokens, skips);
    MatchesIncreasing(delimiters, tokens, Effective(skips, 0), |tokens|);
    var matches := found + [Match(UNKNOWN, |tokens|)];
    spans := [];
    for i := 0 to |matches| - 1
      invariant spans == SpansOf(found, |tokens|)[..i]
    {
      var curr, next := matches[i], matches[i + 1];
      spans := spans + [Span(curr.role, curr.pos, next.pos - curr.pos)];
    }
  }

  // ---------- What the spans are ----------

  ghost predicate HasMatch(ms: seq<Match>, i: nat) {
    exists j :: 0 <= j < |ms| && ms[j].pos == i
  }

  lemma HasMatchAppend(ms: seq<Match>, more: seq<Match>, i: nat)
    ensures HasMatch(ms + more, i) <==> HasMatch(ms, i) || HasMatch(more, i)
  {
    if j :| 0 <= j < |ms| && ms[j].pos == i {
      assert (ms + more)[j].pos == i;
    }
    if j :| 0 <= j < |more| && more[j].pos == i {
      assert (ms + more)[|ms| + j].pos == i;
    }
  }

  lemma HasMatchOne(m: Match, i: nat)
    ensures HasMatch([m], i) <==> i == m.pos
  {
    assert [m][0].pos == m.pos;
  }

  lemma {:induction false} MatchesExactly(delimiters: seq<Delimiter>, tokens: seq<Token>, skips: seq<Skip>, n: nat,
                                          i: nat)
    ensures HasMatch(MatchesBelow(delimiters, tokens, skips, n), i) <==> i < n && Begins(delimiters, tokens, skips, i)
  {
    assert !HasMatch([], i);
    hide RoleAt, InSkip, HasMatch;
    if n > 0 {
      MatchesExactly(delimiters, tokens, skips, n - 1, i);
      if Begins(delimiters, tokens, skips, n - 1) {
        var last := Match(RoleAt(delimiters, tokens, n - 1).value, n - 1);
        HasMatchAppend(MatchesBelow(delimiters, tokens, skips, n - 1), [last], i);
        HasMatchOne(last, i);
      } else {
        HasMatchAppend(MatchesBelow(delimiters, tokens, skips, n - 1), [], i);
      }
    }
  }

  // Every match has the role of the first listed delimiter that matches there.
  lemma {:induction false} MatchRoles(delimiters: seq<Delimiter>, tokens: seq<Token>, skips: seq<Skip>, n: nat)
    ensures forall m :: m in MatchesBelow(delimiters, tokens, skips, n) ==>
              RoleAt(delimiters, tokens, m.pos) == Some(m.role) && Begins(delimiters, tokens, skips, m.pos)
  {
    hide RoleAt, InSkip;
    if n > 0 {
      MatchRoles(delimiters, tokens, skips, n - 1);
    }
  }

  // The spans of a stream: strictly increasing starts, no gap and no overlap from the first start
  // to the end of the stream; a span starts exactly where, outside every skip, some delimiter
  // matches, and has the role of the first listed one that does.
  ghost predicate Tiles(spans: seq<Span>, n: nat) {
    && (forall i, j :: 0 <= i < j < |spans| ==> spans[i].pos < spans[j].pos)
    && (forall j :: 0 <= j < |spans| - 1 ==> spans[j].pos + spans[j].len == spans[j + 1].pos)
    && (spans != [] ==> spans[|spans| - 1].pos + spans[|spans| - 1].len == n)
    && (forall j :: 0 <= j < |spans| ==> spans[j].len > 0)
  }

  lemma SpanAt(ms: seq<Match>, n: nat, j: nat)
    requires Increasing(ms, n) && j < |ms|
    ensures var span := SpansOf(ms, n)[j];
            && span.pos == ms[j].pos && span.len > 0
            && span.pos + span.len == if j + 1 < |ms| then ms[j + 1].pos else n
  {
    hide SpansOf;
  }

  lemma SpansOfTile(ms: seq<Match>, n: nat)
    requires Increasing(ms, n)
    ensures Tiles(SpansOf(ms, n), n)
  {
    var spans := SpansOf(ms, n);
    assert |spans| == |ms|;
    hide SpansOf, Increasing, EndOf;
    forall j | 0 <= j < |spans|
      ensures spans[j].len > 0
    {
      SpanAt(ms, n, j);
    }
    forall j | 0 <= j < |spans| - 1
      ensures spans[j].pos + spans[j].len == spans[j + 1].pos
    {
      SpanAt(ms, n, j);
      SpanAt(ms, n, j + 1);
    }
    forall i, j | 0 <= i < j < |spans|
      ensures spans[i].pos < spans[j].pos
    {
      SpanAt(ms, n, i);
      SpanAt(ms, n, j);
      MatchOrder(ms, n, i, j);
    }
    if spans != [] {
      SpanAt(ms, n, |ms| - 1);
    }
  }

  lemma MatchOrder(ms: seq<Match>, n: nat, i: nat, j: nat)
    requires Increasing(ms, n) && i < j < |ms|
    ensures ms[i].pos < ms[j].pos
  {
  }

  // For any skips; all of them take effect when they are disjoint (`EffectiveDisjoint`).
  lemma SpansTile(delimiters: seq<Delimiter>, tokens: seq<Token>, skips: seq<Skip>)
    ensures Increasing(MatchesBelow(delimiters, tokens, Effective(skips, 0), |tokens|), |tokens|)
    ensures var effective := Effective(skips, 0);
            var spans := SpansOf(MatchesBelow(delimiters, tokens, effective, |tokens|), |tokens|);
            && Tiles(spans, |tokens|)
            && (forall j :: 0 <= j < |spans| ==>
                  !InSkip(effective, spans[j].pos) && RoleAt(delimiters, tokens, spans[j].pos) == Some(spans[j].role))
            && (forall i :: 0 <= i < |tokens| && Begins(delimiters, tokens, effective, i) ==>
                  exists j :: 0 <= j < |spans| && spans[j].pos == i)
  {
    hide MatchesBelow, RoleAt, InSkip, Tiles, Increasing, Effective;
    var effective := Effective(skips, 0);
    MatchesIncreasing(delimiters, tokens, effective, |tokens|);
    MatchRoles(delimiters, tokens, effective, |tokens|);
    var ms := MatchesBelow(delimiters, tokens, effective, |tokens|);
    var spans := SpansOf(ms, |tokens|);
    SpansOfTile(ms, |tokens|);
    forall j | 0 <= j < |spans|
      ensures !InSkip(effective, spans[j].pos) && RoleAt(delimiters, tokens, spans[j].pos) == Some(spans[j].role)
    {
      assert ms[j] in ms;
    }
    forall i | 0 <= i < |tokens| && Begins(delimiters, tokens, effective, i)
      ensures exists j :: 0 <= j < |spans| && spans[j].pos == i
    {
      MatchesExactly(delimiters, tokens, effective, |tokens|, i);
      var j :| 0 <= j < |ms| && ms[j].pos == i;
      assert spans[j].pos == i;
    }
  }
}
