/**
 Preparing the seven region columns for the tabular export: every column is
 extended in place with empty strings up to the length of the longest one.
 */
module Export {

  function Max(a: nat, b: nat): nat {
    if a >= b then a else b
  }

  /** The length of the longest column (0 when there are none): no column is
      longer. */
  function Widest(cols: seq<seq<string>>): (w: nat)
    ensures forall k :: 0 <= k < |cols| ==> |cols[k]| <= w
  {
    if cols == [] then 0
    else
      var init := cols[..|cols| - 1];
      assert forall k :: 0 <= k < |init| ==> init[k] == cols[k];
      Max(Widest(init), |cols[|cols| - 1]|)
  }

  /** `Widest` is reached: it is 0 or the length of some column. */
  lemma {:induction false} WidestIsReached(cols: seq<seq<string>>)
    ensures Widest(cols) == 0 || exists k :: 0 <= k < |cols| && |cols[k]| == Widest(cols)
  {
    if cols != [] {
      var init := cols[..|cols| - 1];
      WidestIsReached(init);
      if Widest(cols) != |cols[|cols| - 1]| && Widest(cols) != 0 {
        var k :| 0 <= k < |init| && |init[k]| == Widest(init);
        assert |cols[k]| == Widest(cols);
      }
    }
  }

  /** `k` empty placeholders. */
  function Blanks(k: nat): (r: seq<string>)
    ensures |r| == k && forall j :: 0 <= j < k ==> r[j] == ""
  {
    if k == 0 then [] else Blanks(k - 1) + [""]
  }

  /** Pads every column with empty strings to the length of the longest. */
  method PadColumns(cols: array<seq<string>>)
    modifies cols
    ensures forall k :: 0 <= k < cols.Length ==> |cols[k]| == Widest(old(cols[..]))
    ensures forall k :: 0 <= k < cols.Length ==>
      cols[k] == old(cols[k]) + Blanks(Widest(old(cols[..])) - |old(cols[k])|)
  {
    var maxLen := 0;
    var i := 0;
    while i < cols.Length
      invariant 0 <= i <= cols.Length
      invariant maxLen == Widest(cols[..i])
    {
      assert cols[..i + 1][..i] == cols[..i];
      maxLen := Max(maxLen, |cols[i]|);
      i := i + 1;
    }
    assert cols[..i] == cols[..];
    i := 0;
    while i < cols.Length
      invariant 0 <= i <= cols.Length
      invariant forall k :: 0 <= k < i ==> cols[k] == old(cols[k]) + Blanks(maxLen - |old(cols[k])|)
      invariant forall k :: i <= k < cols.Length ==> cols[k] == old(cols[k])
    {
      assert |old(cols[i])| <= maxLen by {
        assert old(cols[i]) == old(cols[..])[i];
      }
      cols[i] := cols[i] + Blanks(maxLen - |cols[i]|);
      i := i + 1;
    }
  }
}
