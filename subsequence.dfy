/**
 * The RandomSubsequenceGenerator tool (RandomSubsequenceGenerator/Program.cs):
 * given a start number, a count and a subsequence length on the command line, it
 * prints that many distinct numbers of start, ..., start + count - 1, drawing
 * each with Next(Count - 1) from a linked list of the numbers not printed yet.
 * The unseeded Random becomes the sample stream `stream`, and the console lines
 * become the sequence `printed`.
 */
module Subsequence {
  import opened Wrappers
  import opened Text
  import opened DotNetRandom
  import opened Sampling

  /** What a run shows: the parse error message alone, or the numbers printed and how the run ended. */
  datatype Run = ParseFailed | Ran(printed: seq<int>, outcome: Outcome)

  /** The three arguments are present and each is an Int32. */
  predicate ArgumentsParse(args: seq<string>)
  {
    |args| >= 3 && ParseInt32(args[0]).Ok? && ParseInt32(args[1]).Ok? && ParseInt32(args[2]).Ok?
  }

  /** Enumerable.Range(start, count) accepts its arguments: the count is not negative and the last number is an Int32. */
  predicate RangeFits(start: int, count: int)
  {
    count >= 0 && start + count - 1 <= INT32_MAX
  }

  /** The numbers Enumerable.Range(start, count) yields. */
  function IntRange(start: int, count: nat): (s: seq<int>)
    ensures |s| == count && forall i :: 0 <= i < count ==> s[i] == start + i
  {
    seq(count, i requires 0 <= i < count => start + i)
  }

  /**
   * Main(args): a missing or malformed argument prints the parse error and ends
   * the run. Otherwise Enumerable.Range may reject the start and count; then
   * each round prints the number at position Next(Count - 1) of the remaining
   * list and removes it, until the subsequence is complete or the list is empty,
   * where Next(-1) throws.
   */
  method GenerateSubsequence(args: seq<string>, stream: nat -> int) returns (run: Run)
    requires IsSampleStream(stream)
    ensures run.ParseFailed? <==> !ArgumentsParse(args)
    ensures run.Ran? ==>
      var start, count, subsequenceCount := ParseInt32(args[0]).value, ParseInt32(args[1]).value, ParseInt32(args[2]).value;
      (!RangeFits(start, count) ==> run == Ran([], Fail(ArgumentOutOfRange))) &&
      (RangeFits(start, count) ==>
        run.printed == Picks(IntRange(start, count), if subsequenceCount < 0 then 0 else subsequenceCount, stream, 0) &&
        (run.outcome.Pass? <==> subsequenceCount <= count) &&
        (run.outcome.Fail? ==> run.outcome.error == ArgumentOutOfRange))
  {
    if !ArgumentsParse(args) {
      return ParseFailed;
    }
    var startNumber, sequenceCount, subsequenceCount := ParseInt32(args[0]).value, ParseInt32(args[1]).value, ParseInt32(args[2]).value;
    if !RangeFits(startNumber, sequenceCount) {
      return Ran([], Fail(ArgumentOutOfRange));
    }
    var printed, outcome := Subsample(startNumber, sequenceCount, subsequenceCount, stream);
    return Ran(printed, outcome);
  }

  /**
   * The rounds of Main over the list Enumerable.Range(startNumber, sequenceCount):
   * print the number at position Next(Count - 1), remove it, and throw on
   * Next(-1) once the list is empty.
   */
  method Subsample(startNumber: int, sequenceCount: nat, subsequenceCount: int, stream: nat -> int)
    returns (printed: seq<int>, outcome: Outcome)
    requires IsSampleStream(stream)
    ensures printed == Picks(IntRange(startNumber, sequenceCount), if subsequenceCount < 0 then 0 else subsequenceCount, stream, 0)
    ensures outcome.Pass? <==> subsequenceCount <= sequenceCount
    ensures outcome.Fail? ==> outcome.error == ArgumentOutOfRange
  {
    var random := new Rng(stream);
    var numbers := IntRange(startNumber, sequenceCount);
    ghost var k: nat := if subsequenceCount < 0 then 0 else subsequenceCount;
    ghost var all := Picks(numbers, k, stream, 0);
    printed := [];
    var i := 0;
    while i < subsequenceCount
      invariant 0 <= i <= k && i <= sequenceCount && |numbers| == sequenceCount - i
      invariant random.stream == stream && random.Valid() && random.drawn == i
      invariant printed + Picks(numbers, k - i, stream, i) == all
    {
      var randomId := random.NextBelow(|numbers| - 1);
      if randomId.Err? {
        assert printed == all;
        return printed, Fail(randomId.error);
      }
      // The walk from the first node stops at position randomId.
      var node := randomId.value;
      assert node == PickIndex(stream, i, |numbers|);
      printed := printed + [numbers[node]];
      numbers := RemoveAt(numbers, node);
      i := i + 1;
    }
    return printed, Pass;
  }

  /**
   * What the tool prints is a sample: min(subsequenceCount, count) distinct
   * numbers, each of start, ..., start + count - 1.
   */
  lemma PrintedIsASample(start: int, count: nat, subsequenceCount: nat, stream: nat -> int)
    requires IsSampleStream(stream)
    ensures var printed := Picks(IntRange(start, count), subsequenceCount, stream, 0);
      |printed| == Min(subsequenceCount, count) && NoDuplicates(printed) &&
      forall x :: x in printed ==> start <= x < start + count
  {
    var numbers := IntRange(start, count);
    assert NoDuplicates(numbers);
    PicksAreASample(numbers, subsequenceCount, stream, 0);
  }
}
