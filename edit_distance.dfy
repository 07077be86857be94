/**
 * Minimum edit distance (Levenshtein distance) under insertion, deletion and
 * replacement, computed by filling an (m+1) x (n+1) table.
 */
module EditDistance {

  import opened Wrappers

  /** Python's `min` of three integers. */
  function Min3(x: int, y: int, z: int): (r: int)
    ensures r <= x && r <= y && r <= z
    ensures r == x || r == y || r == z
  {
    if x <= y && x <= z then x else if y <= z then y else z
  }

  function Init(s: string): string
    requires |s| > 0
  {
    s[..|s| - 1]
  }

  function Last(s: string): char
    requires |s| > 0
  {
    s[|s| - 1]
  }

  /**
   * The distance between two strings, by recursion on their last characters:
   * equal last characters cost nothing, otherwise one deletion, insertion or
   * replacement is paid on top of the cheapest smaller problem.
   */
  function Lev(a: string, b: string): nat
    decreases |a| + |b|
  {
    if |a| == 0 then |b|
    else if |b| == 0 then |a|
    else if Last(a) == Last(b) then Lev(Init(a), Init(b))
    else 1 + Min3(Lev(Init(a), b), Lev(a, Init(b)), Lev(Init(a), Init(b)))
  }

  /**
   * `min_edit_distance`: the table `dp` with `dp[i, j]` the distance between the
   * first i characters of word1 and the first j characters of word2, filled
   * boundary first and then row by row; the answer is its bottom-right cell.
   */
  method MinEditDistance(word1: string, word2: string) returns (d: nat)
    ensures d == Lev(word1, word2)
  {
    var m, n := |word1|, |word2|;
    var dp := new nat[m + 1, n + 1]((_, _) => 0);

    for i := 0 to m + 1
      invariant forall r :: 0 <= r < i ==> dp[r, 0] == r
    {
      dp[i, 0] := i;
    }
    for j := 0 to n + 1
      invariant forall r :: 0 <= r <= m ==> dp[r, 0] == r
      invariant forall c :: 0 <= c < j ==> dp[0, c] == c
    {
      dp[0, j] := j;
    }
    assert forall c :: 0 <= c <= n ==> dp[0, c] == Lev(word1[..0], word2[..c]);

    for i := 1 to m + 1
      invariant forall r, c :: 0 <= r < i && 0 <= c <= n ==> dp[r, c] == Lev(word1[..r], word2[..c])
      invariant forall r :: i <= r <= m ==> dp[r, 0] == r
    {
      FillRow(dp, word1, word2, i);
    }
    assert word1[..m] == word1 && word2[..n] == word2;
    d := dp[m, n];
  }

  /** The inner loop of `min_edit_distance`: fills row i from row i - 1 and the cell to the left. */
  method FillRow(dp: array2<nat>, word1: string, word2: string, i: nat)
    requires dp.Length0 == |word1| + 1 && dp.Length1 == |word2| + 1 && 0 < i <= |word1|
    requires forall r, c :: 0 <= r < i && 0 <= c <= |word2| ==> dp[r, c] == Lev(word1[..r], word2[..c])
    requires dp[i, 0] == i
    modifies dp
    ensures forall c :: 0 <= c <= |word2| ==> dp[i, c] == Lev(word1[..i], word2[..c])
    ensures forall r, c :: 0 <= r < dp.Length0 && 0 <= c < dp.Length1 && r != i ==> dp[r, c] == old(dp[r, c])
  {
    assert dp[i, 0] == Lev(word1[..i], word2[..0]);
    for j := 1 to |word2| + 1
      invariant forall c :: 0 <= c < j ==> dp[i, c] == Lev(word1[..i], word2[..c])
      invariant forall r, c :: 0 <= r < dp.Length0 && 0 <= c < dp.Length1 && r != i ==> dp[r, c] == old(dp[r, c])
    {
      LevStep(word1, word2, i, j);
      if word1[i - 1] == word2[j - 1] {
        dp[i, j] := dp[i - 1, j - 1];
      } else {
        dp[i, j] := 1 + Min3(dp[i - 1, j], dp[i, j - 1], dp[i - 1, j - 1]);
      }
    }
  }

  /** One unfolding of Lev on two non-empty prefixes, in the table's indexing. */
  lemma LevStep(w1: string, w2: string, i: nat, j: nat)
    requires 0 < i <= |w1| && 0 < j <= |w2|
    ensures Lev(w1[..i], w2[..j]) ==
      if w1[i - 1] == w2[j - 1] then Lev(w1[..i - 1], w2[..j - 1])
      else 1 + Min3(Lev(w1[..i - 1], w2[..j]), Lev(w1[..i], w2[..j - 1]), Lev(w1[..i - 1], w2[..j - 1]))
  {
    assert Init(w1[..i]) == w1[..i - 1] && Last(w1[..i]) == w1[i - 1];
    assert Init(w2[..j]) == w2[..j - 1] && Last(w2[..j]) == w2[j - 1];
  }

  /** A string is at distance 0 from itself and at its own length from the empty string. */
  lemma {:induction false} LevIdentity(w: string)
    ensures Lev(w, w) == 0
    ensures Lev([], w) == |w| && Lev(w, []) == |w|
  {
    if |w| > 0 {
      LevIdentity(Init(w));
    }
  }

  /** The distance is at least the difference of the lengths and at most the longer length. */
  lemma {:induction false} LevBounds(a: string, b: string)
    ensures |a| - |b| <= Lev(a, b) && |b| - |a| <= Lev(a, b)
    ensures Lev(a, b) <= if |a| <= |b| then |b| else |a|
    decreases |a| + |b|
  {
    if |a| > 0 && |b| > 0 {
      LevBounds(Init(a), Init(b));
      if Last(a) != Last(b) {
        LevBounds(Init(a), b);
        LevBounds(a, Init(b));
      }
    }
  }

  /** The distance does not depend on which string is the source. */
  lemma {:induction false} LevSymmetric(a: string, b: string)
    ensures Lev(a, b) == Lev(b, a)
    decreases |a| + |b|
  {
    if |a| > 0 && |b| > 0 {
      LevSymmetric(Init(a), Init(b));
      if Last(a) != Last(b) {
        LevSymmetric(Init(a), b);
        LevSymmetric(a, Init(b));
      }
    }
  }

  /** Appending one character to the source costs at most one edit. */
  lemma {:induction false} AppendSource(x: string, y: string, d: char)
    ensures Lev(x + [d], y) <= Lev(x, y) + 1
    decreases |x| + |y|, 1
  {
    assert Init(x + [d]) == x && Last(x + [d]) == d;
    if |y| > 0 && Last(y) == d {
      DropTarget(x, Init(y), d);
      assert Init(y) + [d] == y;
    }
  }

  /** Removing the last character of the target saves at most one edit. */
  lemma {:induction false} DropTarget(x: string, y: string, c: char)
    ensures Lev(x, y) <= Lev(x, y + [c]) + 1
    decreases |x| + |y|, 0
  {
    assert Init(y + [c]) == y && Last(y + [c]) == c;
    if |x| > 0 {
      AppendSource(Init(x), y, Last(x));
      assert Init(x) + [Last(x)] == x;
      if Last(x) != c {
        DropTarget(Init(x), y, c);
      }
    }
  }

  /** Appending one character to the target costs at most one edit. */
  lemma AppendTarget(x: string, y: string, d: char)
    ensures Lev(x, y + [d]) <= Lev(x, y) + 1
  {
    AppendSource(y, x, d);
    LevSymmetric(x, y + [d]);
    LevSymmetric(x, y);
  }

  /** One step of an edit script. */
  datatype EditOp = Keep | Replace(c: char) | Delete | Insert(c: char)

  /**
   * Runs an edit script on a source string. The operations are aligned with the
   * source from left to right: `Keep`, `Replace` and `Delete` each consume one
   * source character, `Keep`, `Replace` and `Insert` each produce one output
   * character. The result is None when the script does not fit the source.
   */
  function Apply(a: string, ops: seq<EditOp>): Option<string>
    decreases |ops|
  {
    if |ops| == 0 then (if |a| == 0 then Some([]) else None)
    else
      var rest := ops[..|ops| - 1];
      match ops[|ops| - 1]
      case Insert(c) => Extend(Apply(a, rest), c)
      case Delete => if |a| == 0 then None else Apply(Init(a), rest)
      case Replace(c) => if |a| == 0 then None else Extend(Apply(Init(a), rest), c)
      case Keep => if |a| == 0 then None else Extend(Apply(Init(a), rest), Last(a))
  }

  function Extend(o: Option<string>, c: char): Option<string>
  {
    match o
    case None => None
    case Some(s) => Some(s + [c])
  }

  /** The number of insertions, deletions and replacements in a script. */
  function Cost(ops: seq<EditOp>): nat
  {
    if |ops| == 0 then 0 else Cost(ops[..|ops| - 1]) + (if ops[|ops| - 1].Keep? then 0 else 1)
  }

  /** Running a script with one more operation at the end. */
  lemma ApplySnoc(a: string, ops: seq<EditOp>, op: EditOp)
    ensures Cost(ops + [op]) == Cost(ops) + (if op.Keep? then 0 else 1)
    ensures op.Insert? ==> Apply(a, ops + [op]) == Extend(Apply(a, ops), op.c)
    ensures op.Delete? && |a| > 0 ==> Apply(a, ops + [op]) == Apply(Init(a), ops)
    ensures op.Replace? && |a| > 0 ==> Apply(a, ops + [op]) == Extend(Apply(Init(a), ops), op.c)
    ensures op.Keep? && |a| > 0 ==> Apply(a, ops + [op]) == Extend(Apply(Init(a), ops), Last(a))
  {
    assert (ops + [op])[..|ops|] == ops;
  }

  /** A script that turns a into b using exactly Lev(a, b) edits. */
  function Script(a: string, b: string): (ops: seq<EditOp>)
    ensures Apply(a, ops) == Some(b)
    ensures Cost(ops) == Lev(a, b)
    decreases |a| + |b|
  {
    if |a| == 0 && |b| == 0 then []
    else if |a| > 0 && (|b| == 0 || (Last(a) != Last(b) && Lev(Init(a), b) < Lev(Init(a), Init(b)) && Lev(Init(a), b) <= Lev(a, Init(b)))) then
      DeleteLast(a, b)
    else if |a| > 0 && |b| > 0 && Last(a) == Last(b) then
      ReplaceLast(a, b, Keep)
    else if |a| > 0 && |b| > 0 && Lev(Init(a), Init(b)) <= Lev(a, Init(b)) then
      ReplaceLast(a, b, Replace(Last(b)))
    else
      InsertLast(a, b)
  }

  function DeleteLast(a: string, b: string): (ops: seq<EditOp>)
    requires |a| > 0
    ensures Apply(a, ops) == Some(b) && Cost(ops) == Lev(Init(a), b) + 1
    decreases |a| + |b|, 0
  {
    var prefix := Script(Init(a), b);
    ApplySnoc(a, prefix, Delete);
    prefix + [Delete]
  }

  function InsertLast(a: string, b: string): (ops: seq<EditOp>)
    requires |b| > 0
    ensures Apply(a, ops) == Some(b) && Cost(ops) == Lev(a, Init(b)) + 1
    decreases |a| + |b|, 0
  {
    var prefix := Script(a, Init(b));
    ApplySnoc(a, prefix, Insert(Last(b)));
    assert Init(b) + [Last(b)] == b;
    prefix + [Insert(Last(b))]
  }

  function ReplaceLast(a: string, b: string, op: EditOp): (ops: seq<EditOp>)
    requires |a| > 0 && |b| > 0
    requires (op == Keep && Last(a) == Last(b)) || op == Replace(Last(b))
    ensures Apply(a, ops) == Some(b)
    ensures Cost(ops) == Lev(Init(a), Init(b)) + (if op.Keep? then 0 else 1)
    decreases |a| + |b|, 0
  {
    var prefix := Script(Init(a), Init(b));
    ApplySnoc(a, prefix, op);
    assert Init(b) + [Last(b)] == b;
    prefix + [op]
  }

  /** No script that turns a into b uses fewer than Lev(a, b) edits. */
  lemma {:induction false} ScriptCostAtLeastLev(a: string, b: string, ops: seq<EditOp>)
    requires Apply(a, ops) == Some(b)
    ensures Lev(a, b) <= Cost(ops)
    decreases |ops|
  {
    if |ops| > 0 {
      var rest := ops[..|ops| - 1];
      match ops[|ops| - 1]
      case Insert(c) =>
        var b' := Apply(a, rest).value;
        assert b == b' + [c];
        ScriptCostAtLeastLev(a, b', rest);
        AppendTarget(a, b', c);
      case Delete =>
        ScriptCostAtLeastLev(Init(a), b, rest);
        AppendSource(Init(a), b, Last(a));
        assert Init(a) + [Last(a)] == a;
      case Replace(c) =>
        var b' := Apply(Init(a), rest).value;
        assert b == b' + [c];
        assert Init(b) == b' && Last(b) == c;
        ScriptCostAtLeastLev(Init(a), b', rest);
      case Keep =>
        var b' := Apply(Init(a), rest).value;
        assert b == b' + [Last(a)];
        assert Init(b) == b' && Last(b) == Last(a);
        ScriptCostAtLeastLev(Init(a), b', rest);
    }
  }

  /** Lev(a, b) is exactly the least number of edits of any script turning a into b. */
  lemma LevIsMinimumEdits(a: string, b: string)
    ensures exists ops :: Apply(a, ops) == Some(b) && Cost(ops) == Lev(a, b)
    ensures forall ops :: Apply(a, ops) == Some(b) ==> Lev(a, b) <= Cost(ops)
  {
    var best := Script(a, b);
    assert Apply(a, best) == Some(b) && Cost(best) == Lev(a, b);
    forall ops | Apply(a, ops) == Some(b)
      ensures Lev(a, b) <= Cost(ops)
    {
      ScriptCostAtLeastLev(a, b, ops);
    }
  }

  /** The first example of the script: three edits turn "horse" into "ros". */
  lemma HorseToRos()
    ensures Lev("horse", "ros") == 3
  {
    var a, b := "horse", "ros";
    HorseRosRow5(a, b);
    assert a[..5] == a && b[..3] == b;
  }

  /** Rows 4 and 5 of the table for the first example. */
  lemma HorseRosRow5(a: string, b: string)
    requires a == "horse" && b == "ros"
    ensures Lev(a[..5], b[..3]) == 3
  {
    HorseRosRow3(a, b);
    assert Lev(a[..4], b[..0]) == 4;
    assert Lev(a[..4], b[..1]) == 3 by { LevStep(a, b, 4, 1); }
    assert Lev(a[..4], b[..2]) == 3 by { LevStep(a, b, 4, 2); }
    assert Lev(a[..4], b[..3]) == 2 by { LevStep(a, b, 4, 3); }
    assert Lev(a[..5], b[..0]) == 5;
    assert Lev(a[..5], b[..1]) == 4 by { LevStep(a, b, 5, 1); }
    assert Lev(a[..5], b[..2]) == 4 by { LevStep(a, b, 5, 2); }
    assert Lev(a[..5], b[..3]) == 3 by { LevStep(a, b, 5, 3); }
  }

  /** Rows 0 to 3 of the table for the first example. */
  lemma HorseRosRow3(a: string, b: string)
    requires a == "horse" && b == "ros"
    ensures Lev(a[..3], b[..0]) == 3
    ensures Lev(a[..3], b[..1]) == 2
    ensures Lev(a[..3], b[..2]) == 2
    ensures Lev(a[..3], b[..3]) == 2
  {
    assert Lev(a[..0], b[..0]) == 0;
    assert Lev(a[..0], b[..1]) == 1;
    assert Lev(a[..0], b[..2]) == 2;
    assert Lev(a[..0], b[..3]) == 3;
    assert Lev(a[..1], b[..0]) == 1;
    assert Lev(a[..1], b[..1]) == 1 by { LevStep(a, b, 1, 1); }
    assert Lev(a[..1], b[..2]) == 2 by { LevStep(a, b, 1, 2); }
    assert Lev(a[..1], b[..3]) == 3 by { LevStep(a, b, 1, 3); }
    assert Lev(a[..2], b[..0]) == 2;
    assert Lev(a[..2], b[..1]) == 2 by { LevStep(a, b, 2, 1); }
    assert Lev(a[..2], b[..2]) == 1 by { LevStep(a, b, 2, 2); }
    assert Lev(a[..2], b[..3]) == 2 by { LevStep(a, b, 2, 3); }
    assert Lev(a[..3], b[..0]) == 3;
    assert Lev(a[..3], b[..1]) == 2 by { LevStep(a, b, 3, 1); }
    assert Lev(a[..3], b[..2]) == 2 by { LevStep(a, b, 3, 2); }
    assert Lev(a[..3], b[..3]) == 2 by { LevStep(a, b, 3, 3); }
  }

  /** The second example: five edits turn "intention" into "execution". */
  lemma IntentionToExecution()
    ensures Lev("intention", "execution") == 5
  {
    var a, b := "intention", "execution";
    IntentionExecutionRow9(a, b);
    assert a[..9] == a && b[..9] == b;
  }

  /** Row 1 of the table for the second example. */
  lemma IntentionExecutionRow1(a: string, b: string)
    requires a == "intention" && b == "execution"
    ensures Lev(a[..1], b[..0]) == 1
    ensures Lev(a[..1], b[..1]) == 1
    ensures Lev(a[..1], b[..2]) == 2
    ensures Lev(a[..1], b[..3]) == 3
    ensures Lev(a[..1], b[..4]) == 4
    ensures Lev(a[..1], b[..5]) == 5
    ensures Lev(a[..1], b[..6]) == 6
    ensures Lev(a[..1], b[..7]) == 6
    ensures Lev(a[..1], b[..8]) == 7
    ensures Lev(a[..1], b[..9]) == 8
  {
    assert Lev(a[..0], b[..0]) == 0;
    assert Lev(a[..0], b[..1]) == 1;
    assert Lev(a[..0], b[..2]) == 2;
    assert Lev(a[..0], b[..3]) == 3;
    assert Lev(a[..0], b[..4]) == 4;
    assert Lev(a[..0], b[..5]) == 5;
    assert Lev(a[..0], b[..6]) == 6;
    assert Lev(a[..0], b[..7]) == 7;
    assert Lev(a[..0], b[..8]) == 8;
    assert Lev(a[..0], b[..9]) == 9;
    assert Lev(a[..1], b[..0]) == 1;
    assert Lev(a[..1], b[..1]) == 1 by { LevStep(a, b, 1, 1); }
    assert Lev(a[..1], b[..2]) == 2 by { LevStep(a, b, 1, 2); }
    assert Lev(a[..1], b[..3]) == 3 by { LevStep(a, b, 1, 3); }
    assert Lev(a[..1], b[..4]) == 4 by { LevStep(a, b, 1, 4); }
    assert Lev(a[..1], b[..5]) == 5 by { LevStep(a, b, 1, 5); }
    assert Lev(a[..1], b[..6]) == 6 by { LevStep(a, b, 1, 6); }
    assert Lev(a[..1], b[..7]) == 6 by { LevStep(a, b, 1, 7); }
    assert Lev(a[..1], b[..8]) == 7 by { LevStep(a, b, 1, 8); }
    assert Lev(a[..1], b[..9]) == 8 by { LevStep(a, b, 1, 9); }
  }

  /** Row 2 of the table for the second example. */
  lemma IntentionExecutionRow2(a: string, b: string)
    requires a == "intention" && b == "execution"
    ensures Lev(a[..2], b[..0]) == 2
    ensures Lev(a[..2], b[..1]) == 2
    ensures Lev(a[..2], b[..2]) == 2
    ensures Lev(a[..2], b[..3]) == 3
    ensures Lev(a[..2], b[..4]) == 4
    ensures Lev(a[..2], b[..5]) == 5
    ensures Lev(a[..2], b[..6]) == 6
    ensures Lev(a[..2], b[..7]) == 7
    ensures Lev(a[..2], b[..8]) == 7
    ensures Lev(a[..2], b[..9]) == 7
  {
    IntentionExecutionRow1(a, b);
    assert Lev(a[..2], b[..0]) == 2;
    assert Lev(a[..2], b[..1]) == 2 by { LevStep(a, b, 2, 1); }
    assert Lev(a[..2], b[..2]) == 2 by { LevStep(a, b, 2, 2); }
    assert Lev(a[..2], b[..3]) == 3 by { LevStep(a, b, 2, 3); }
    assert Lev(a[..2], b[..4]) == 4 by { LevStep(a, b, 2, 4); }
    assert Lev(a[..2], b[..5]) == 5 by { LevStep(a, b, 2, 5); }
    assert Lev(a[..2], b[..6]) == 6 by { LevStep(a, b, 2, 6); }
    assert Lev(a[..2], b[..7]) == 7 by { LevStep(a, b, 2, 7); }
    assert Lev(a[..2], b[..8]) == 7 by { LevStep(a, b, 2, 8); }
    assert Lev(a[..2], b[..9]) == 7 by { LevStep(a, b, 2, 9); }
  }

  /** Row 3 of the table for the second example. */
  lemma IntentionExecutionRow3(a: string, b: string)
    requires a == "intention" && b == "execution"
    ensures Lev(a[..3], b[..0]) == 3
    ensures Lev(a[..3], b[..1]) == 3
    ensures Lev(a[..3], b[..2]) == 3
    ensures Lev(a[..3], b[..3]) == 3
    ensures Lev(a[..3], b[..4]) == 4
    ensures Lev(a[..3], b[..5]) == 5
    ensures Lev(a[..3], b[..6]) == 5
    ensures Lev(a[..3], b[..7]) == 6
    ensures Lev(a[..3], b[..8]) == 7
    ensures Lev(a[..3], b[..9]) == 8
  {
    IntentionExecutionRow2(a, b);
    assert Lev(a[..3], b[..0]) == 3;
    assert Lev(a[..3], b[..1]) == 3 by { LevStep(a, b, 3, 1); }
    assert Lev(a[..3], b[..2]) == 3 by { LevStep(a, b, 3, 2); }
    assert Lev(a[..3], b[..3]) == 3 by { LevStep(a, b, 3, 3); }
    assert Lev(a[..3], b[..4]) == 4 by { LevStep(a, b, 3, 4); }
    assert Lev(a[..3], b[..5]) == 5 by { LevStep(a, b, 3, 5); }
    assert Lev(a[..3], b[..6]) == 5 by { LevStep(a, b, 3, 6); }
    assert Lev(a[..3], b[..7]) == 6 by { LevStep(a, b, 3, 7); }
    assert Lev(a[..3], b[..8]) == 7 by { LevStep(a, b, 3, 8); }
    assert Lev(a[..3], b[..9]) == 8 by { LevStep(a, b, 3, 9); }
  }

  /** Row 4 of the table for the second example. */
  lemma IntentionExecutionRow4(a: string, b: string)
    requires a == "intention" && b == "execution"
    ensures Lev(a[..4], b[..0]) == 4
    ensures Lev(a[..4], b[..1]) == 3
    ensures Lev(a[..4], b[..2]) == 4
    ensures Lev(a[..4], b[..3]) == 3
    ensures Lev(a[..4], b[..4]) == 4
    ensures Lev(a[..4], b[..5]) == 5
    ensures Lev(a[..4], b[..6]) == 6
    ensures Lev(a[..4], b[..7]) == 6
    ensures Lev(a[..4], b[..8]) == 7
    ensures Lev(a[..4], b[..9]) == 8
  {
    IntentionExecutionRow3(a, b);
    assert Lev(a[..4], b[..0]) == 4;
    assert Lev(a[..4], b[..1]) == 3 by { LevStep(a, b, 4, 1); }
    assert Lev(a[..4], b[..2]) == 4 by { LevStep(a, b, 4, 2); }
    assert Lev(a[..4], b[..3]) == 3 by { LevStep(a, b, 4, 3); }
    assert Lev(a[..4], b[..4]) == 4 by { LevStep(a, b, 4, 4); }
    assert Lev(a[..4], b[..5]) == 5 by { LevStep(a, b, 4, 5); }
    assert Lev(a[..4], b[..6]) == 6 by { LevStep(a, b, 4, 6); }
    assert Lev(a[..4], b[..7]) == 6 by { LevStep(a, b, 4, 7); }
    assert Lev(a[..4], b[..8]) == 7 by { LevStep(a, b, 4, 8); }
    assert Lev(a[..4], b[..9]) == 8 by { LevStep(a, b, 4, 9); }
  }

  /** Row 5 of the table for the second example. */
  lemma IntentionExecutionRow5(a: string, b: string)
    requires a == "intention" && b == "execution"
    ensures Lev(a[..5], b[..0]) == 5
    ensures Lev(a[..5], b[..1]) == 4
    ensures Lev(a[..5], b[..2]) == 4
    ensures Lev(a[..5], b[..3]) == 4
    ensures Lev(a[..5], b[..4]) == 4
    ensures Lev(a[..5], b[..5]) == 5
    ensures Lev(a[..5], b[..6]) == 6
    ensures Lev(a[..5], b[..7]) == 7
    ensures Lev(a[..5], b[..8]) == 7
    ensures Lev(a[..5], b[..9]) == 7
  {
    IntentionExecutionRow4(a, b);
    assert Lev(a[..5], b[..0]) == 5;
    assert Lev(a[..5], b[..1]) == 4 by { LevStep(a, b, 5, 1); }
    assert Lev(a[..5], b[..2]) == 4 by { LevStep(a, b, 5, 2); }
    assert Lev(a[..5], b[..3]) == 4 by { LevStep(a, b, 5, 3); }
    assert Lev(a[..5], b[..4]) == 4 by { LevStep(a, b, 5, 4); }
    assert Lev(a[..5], b[..5]) == 5 by { LevStep(a, b, 5, 5); }
    assert Lev(a[..5], b[..6]) == 6 by { LevStep(a, b, 5, 6); }
    assert Lev(a[..5], b[..7]) == 7 by { LevStep(a, b, 5, 7); }
    assert Lev(a[..5], b[..8]) == 7 by { LevStep(a, b, 5, 8); }
    assert Lev(a[..5], b[..9]) == 7 by { LevStep(a, b, 5, 9); }
  }

  /** Row 6 of the table for the second example. */
  lemma IntentionExecutionRow6(a: string, b: string)
    requires a == "intention" && b == "execution"
    ensures Lev(a[..6], b[..0]) == 6
    ensures Lev(a[..6], b[..1]) == 5
    ensures Lev(a[..6], b[..2]) == 5
    ensures Lev(a[..6], b[..3]) == 5
    ensures Lev(a[..6], b[..4]) == 5
    ensures Lev(a[..6], b[..5]) == 5
    ensures Lev(a[..6], b[..6]) == 5
    ensures Lev(a[..6], b[..7]) == 6
    ensures Lev(a[..6], b[..8]) == 7
    ensures Lev(a[..6], b[..9]) == 8
  {
    IntentionExecutionRow5(a, b);
    assert Lev(a[..6], b[..0]) == 6;
    assert Lev(a[..6], b[..1]) == 5 by { LevStep(a, b, 6, 1); }
    assert Lev(a[..6], b[..2]) == 5 by { LevStep(a, b, 6, 2); }
    assert Lev(a[..6], b[..3]) == 5 by { LevStep(a, b, 6, 3); }
    assert Lev(a[..6], b[..4]) == 5 by { LevStep(a, b, 6, 4); }
    assert Lev(a[..6], b[..5]) == 5 by { LevStep(a, b, 6, 5); }
    assert Lev(a[..6], b[..6]) == 5 by { LevStep(a, b, 6, 6); }
    assert Lev(a[..6], b[..7]) == 6 by { LevStep(a, b, 6, 7); }
    assert Lev(a[..6], b[..8]) == 7 by { LevStep(a, b, 6, 8); }
    assert Lev(a[..6], b[..9]) == 8 by { LevStep(a, b, 6, 9); }
  }

  /** Row 7 of the table for the second example. */
  lemma IntentionExecutionRow7(a: string, b: string)
    requires a == "intention" && b == "execution"
    ensures Lev(a[..7], b[..0]) == 7
    ensures Lev(a[..7], b[..1]) == 6
    ensures Lev(a[..7], b[..2]) == 6
    ensures Lev(a[..7], b[..3]) == 6
    ensures Lev(a[..7], b[..4]) == 6
    ensures Lev(a[..7], b[..5]) == 6
    ensures Lev(a[..7], b[..6]) == 6
    ensures Lev(a[..7], b[..7]) == 5
    ensures Lev(a[..7], b[..8]) == 6
    ensures Lev(a[..7], b[..9]) == 7
  {
    IntentionExecutionRow6(a, b);
    assert Lev(a[..7], b[..0]) == 7;
    assert Lev(a[..7], b[..1]) == 6 by { LevStep(a, b, 7, 1); }
    assert Lev(a[..7], b[..2]) == 6 by { LevStep(a, b, 7, 2); }
    assert Lev(a[..7], b[..3]) == 6 by { LevStep(a, b, 7, 3); }
    assert Lev(a[..7], b[..4]) == 6 by { LevStep(a, b, 7, 4); }
    assert Lev(a[..7], b[..5]) == 6 by { LevStep(a, b, 7, 5); }
    assert Lev(a[..7], b[..6]) == 6 by { LevStep(a, b, 7, 6); }
    assert Lev(a[..7], b[..7]) == 5 by { LevStep(a, b, 7, 7); }
    assert Lev(a[..7], b[..8]) == 6 by { LevStep(a, b, 7, 8); }
    assert Lev(a[..7], b[..9]) == 7 by { LevStep(a, b, 7, 9); }
  }

  /** Row 8 of the table for the second example. */
  lemma IntentionExecutionRow8(a: string, b: string)
    requires a == "intention" && b == "execution"
    ensures Lev(a[..8], b[..0]) == 8
    ensures Lev(a[..8], b[..1]) == 7
    ensures Lev(a[..8], b[..2]) == 7
    ensures Lev(a[..8], b[..3]) == 7
    ensures Lev(a[..8], b[..4]) == 7
    ensures Lev(a[..8], b[..5]) == 7
    ensures Lev(a[..8], b[..6]) == 7
    ensures Lev(a[..8], b[..7]) == 6
    ensures Lev(a[..8], b[..8]) == 5
    ensures Lev(a[..8], b[..9]) == 6
  {
    IntentionExecutionRow7(a, b);
    assert Lev(a[..8], b[..0]) == 8;
    assert Lev(a[..8], b[..1]) == 7 by { LevStep(a, b, 8, 1); }
    assert Lev(a[..8], b[..2]) == 7 by { LevStep(a, b, 8, 2); }
    assert Lev(a[..8], b[..3]) == 7 by { LevStep(a, b, 8, 3); }
    assert Lev(a[..8], b[..4]) == 7 by { LevStep(a, b, 8, 4); }
    assert Lev(a[..8], b[..5]) == 7 by { LevStep(a, b, 8, 5); }
    assert Lev(a[..8], b[..6]) == 7 by { LevStep(a, b, 8, 6); }
    assert Lev(a[..8], b[..7]) == 6 by { LevStep(a, b, 8, 7); }
    assert Lev(a[..8], b[..8]) == 5 by { LevStep(a, b, 8, 8); }
    assert Lev(a[..8], b[..9]) == 6 by { LevStep(a, b, 8, 9); }
  }

  /** Row 9 of the table for the second example. */
  lemma IntentionExecutionRow9(a: string, b: string)
    requires a == "intention" && b == "execution"
    ensures Lev(a[..9], b[..0]) == 9
    ensures Lev(a[..9], b[..1]) == 8
    ensures Lev(a[..9], b[..2]) == 8
    ensures Lev(a[..9], b[..3]) == 8
    ensures Lev(a[..9], b[..4]) == 8
    ensures Lev(a[..9], b[..5]) == 8
    ensures Lev(a[..9], b[..6]) == 8
    ensures Lev(a[..9], b[..7]) == 7
    ensures Lev(a[..9], b[..8]) == 6
    ensures Lev(a[..9], b[..9]) == 5
  {
    IntentionExecutionRow8(a, b);
    assert Lev(a[..9], b[..0]) == 9;
    assert Lev(a[..9], b[..1]) == 8 by { LevStep(a, b, 9, 1); }
    assert Lev(a[..9], b[..2]) == 8 by { LevStep(a, b, 9, 2); }
    assert Lev(a[..9], b[..3]) == 8 by { LevStep(a, b, 9, 3); }
    assert Lev(a[..9], b[..4]) == 8 by { LevStep(a, b, 9, 4); }
    assert Lev(a[..9], b[..5]) == 8 by { LevStep(a, b, 9, 5); }
    assert Lev(a[..9], b[..6]) == 8 by { LevStep(a, b, 9, 6); }
    assert Lev(a[..9], b[..7]) == 7 by { LevStep(a, b, 9, 7); }
    assert Lev(a[..9], b[..8]) == 6 by { LevStep(a, b, 9, 8); }
    assert Lev(a[..9], b[..9]) == 5 by { LevStep(a, b, 9, 9); }
  }
}
