/** The chunked search for a marker, ignoring the case of ASCII letters. */
module FoldSearch {
  import opened Bytes
  import opened Text

  function LowerByte(b: byte): byte {
    if 0x41 <= b <= 0x5A then b + 0x20 else b
  }

  /** `bytes.ToLower`, on ASCII. */
  function Lower(s: seq<byte>): seq<byte> {
    seq(|s|, i requires 0 <= i < |s| => LowerByte(s[i]))
  }

  /** `bytes.Contains`. */
  predicate Contains(hay: seq<byte>, needle: seq<byte>) {
    exists i: nat | i <= |hay| :: OccursAt(hay, needle, i)
  }

  /** The needle occurs in the text when the case of ASCII letters is ignored. */
  predicate ContainsFold(hay: seq<byte>, needle: seq<byte>) {
    Contains(Lower(hay), Lower(needle))
  }

  /** The same byte, or the same ASCII letter in another case. */
  predicate SameAscii(a: byte, b: byte) {
    || a == b
    || (0x41 <= a <= 0x5A && b as int == a as int + 0x20)
    || (0x41 <= b <= 0x5A && a as int == b as int + 0x20)
  }

  predicate MatchesAt(hay: seq<byte>, needle: seq<byte>, i: nat) {
    i + |needle| <= |hay| && forall j | 0 <= j < |needle| :: SameAscii(hay[i + j], needle[j])
  }

  lemma LowerIsSameAscii(a: byte, b: byte)
    ensures LowerByte(a) == LowerByte(b) <==> SameAscii(a, b)
  {
  }

  lemma MatchIsOccurrence(hay: seq<byte>, needle: seq<byte>, i: nat)
    ensures OccursAt(Lower(hay), Lower(needle), i) <==> MatchesAt(hay, needle, i)
  {
    hide LowerByte, SameAscii;
    if i + |needle| <= |hay| {
      var window := Lower(hay)[i..i + |needle|];
      forall j | 0 <= j < |needle| ensures window[j] == Lower(needle)[j] <==> SameAscii(hay[i + j], needle[j]) {
        LowerIsSameAscii(hay[i + j], needle[j]);
      }
      if MatchesAt(hay, needle, i) {
        assert window == Lower(needle);
      }
    }
  }

  /** What is looked for: a place where the text has the letters of the needle, in any case. */
  lemma ContainsFoldMeans(hay: seq<byte>, needle: seq<byte>)
    ensures ContainsFold(hay, needle) <==> exists i: nat :: MatchesAt(hay, needle, i)
  {
    hide LowerByte, OccursAt;
    forall i: nat ensures OccursAt(Lower(hay), Lower(needle), i) <==> MatchesAt(hay, needle, i) {
      MatchIsOccurrence(hay, needle, i);
    }
  }

  /** A reader: what its reads return, and what comes with the end of the stream or with an error. */
  datatype Stream = Stream(pieces: seq<seq<byte>>, last: seq<byte>, broken: bool) {
    function All(): seq<byte> {
      Flatten(pieces) + last
    }
  }

  datatype Outcome = Answer(found: bool) | ReadError

  /** The last bytes of the text that may still be the beginning of an occurrence. */
  function Tail(text: seq<byte>, n: nat): seq<byte> {
    if |text| >= n then text[|text| - n..] else text
  }

  lemma LowerConcat(a: seq<byte>, b: seq<byte>)
    ensures Lower(a + b) == Lower(a) + Lower(b)
  {
  }

  lemma LowerTail(a: seq<byte>, n: nat)
    ensures Lower(Tail(a, n)) == Tail(Lower(a), n)
  {
  }

  lemma OccursInPrefix(a: seq<byte>, b: seq<byte>, needle: seq<byte>, i: nat)
    requires i + |needle| <= |a|
    ensures OccursAt(a + b, needle, i) <==> OccursAt(a, needle, i)
  {
    assert (a + b)[i..i + |needle|] == a[i..i + |needle|];
  }

  lemma OccursInSuffix(a: seq<byte>, b: seq<byte>, needle: seq<byte>, i: nat)
    ensures OccursAt(a + b, needle, |a| + i) <==> OccursAt(b, needle, i)
  {
    if i + |needle| <= |b| {
      assert (a + b)[|a| + i..|a| + i + |needle|] == b[i..i + |needle|];
    }
  }

  /** A text contains the needle if and only if what was seen before does, or its tail with the new
      bytes does. */
  lemma TailSuffices(seen: seq<byte>, data: seq<byte>, needle: seq<byte>)
    requires needle != []
    ensures Contains(seen + data, needle)
      <==> Contains(seen, needle) || Contains(Tail(seen, |needle| - 1) + data, needle)
  {
    hide OccursAt;
    var tail := Tail(seen, |needle| - 1);
    var head := seen[..|seen| - |tail|];
    assert seen == head + tail;
    assert seen + data == head + (tail + data);
    if Contains(seen + data, needle) {
      var i: nat :| i <= |seen + data| && OccursAt(seen + data, needle, i);
      if i + |needle| <= |seen| {
        OccursInPrefix(seen, data, needle, i);
      } else {
        OccursInSuffix(head, tail + data, needle, i - |head|);
      }
    }
    if Contains(seen, needle) {
      var i: nat :| i <= |seen| && OccursAt(seen, needle, i);
      OccursFits(seen, needle, i);
      OccursInPrefix(seen, data, needle, i);
    }
    if Contains(tail + data, needle) {
      var i: nat :| i <= |tail + data| && OccursAt(tail + data, needle, i);
      OccursInSuffix(head, tail + data, needle, i);
    }
  }

  lemma OccursFits(a: seq<byte>, needle: seq<byte>, i: nat)
    requires OccursAt(a, needle, i)
    ensures i + |needle| <= |a|
  {
  }

  lemma SearchStep(seen: seq<byte>, data: seq<byte>, needle: seq<byte>)
    requires needle != []
    ensures ContainsFold(seen + data, needle)
      <==> ContainsFold(seen, needle) || ContainsFold(Tail(seen, |needle| - 1) + data, needle)
  {
    hide Contains, Tail;
    LowerConcat(seen, data);
    LowerConcat(Tail(seen, |needle| - 1), data);
    LowerTail(seen, |needle| - 1);
    TailSuffices(Lower(seen), Lower(data), Lower(needle));
  }

  /** The tail can be kept up to date from itself and the new bytes alone. */
  lemma TailStep(seen: seq<byte>, data: seq<byte>, n: nat)
    ensures Tail(Tail(seen, n) + data, n) == Tail(seen + data, n)
  {
  }

  lemma LastBytes(chunk: seq<byte>, n: nat)
    ensures Tail(chunk, n) == if |chunk| >= n then chunk[|chunk| - n..] else chunk
  {
  }

  /** One read: searches it together with the carry, and moves the carry on. */
  method Feed(carry: seq<byte>, data: seq<byte>, needle: seq<byte>, ghost seen: seq<byte>)
    returns (found: bool, next: seq<byte>)
    requires needle != [] && Lower(needle) == needle
    requires carry == Tail(seen, |needle| - 1) && !ContainsFold(seen, needle)
    ensures found <==> ContainsFold(seen + data, needle)
    ensures !found ==> next == Tail(seen + data, |needle| - 1)
  {
    hide ContainsFold, Lower, Tail;
    SearchStep(seen, data, needle);
    TailStep(seen, data, |needle| - 1);
    if |data| == 0 {
      assert seen + data == seen;
      return false, carry;
    }
    var chunk := carry + data;
    if FoundIn(chunk, needle) {
      return true, carry;
    }
    next := if |chunk| >= |needle| - 1 then chunk[|chunk| - |needle| + 1..] else chunk;
    LastBytes(chunk, |needle| - 1);
    return false, next;
  }

  /** `bytes.Contains(bytes.ToLower(chunk), needle)`, for a needle in lower case. */
  predicate FoundIn(chunk: seq<byte>, needle: seq<byte>)
    requires Lower(needle) == needle
    ensures FoundIn(chunk, needle) <==> ContainsFold(chunk, needle)
  {
    Contains(Lower(chunk), needle)
  }

  lemma LowerTwice(s: seq<byte>)
    ensures Lower(Lower(s)) == Lower(s)
  {
  }

  lemma {:induction false} NothingInNothing(needle: seq<byte>)
    requires needle != []
    ensures !ContainsFold([], needle)
  {
  }

  /** `streamContainsFold`: however the text arrives, in short reads, empty reads or together with its
      end, the answer is whether the needle occurs in the whole text. An error is reported only if the
      bytes read until then do not contain the needle. */
  method StreamContainsFold(stream: Stream, needle: seq<byte>) returns (out: Outcome)
    ensures out ==
      if needle == [] || ContainsFold(stream.All(), needle) then Answer(true)
      else if stream.broken then ReadError else Answer(false)
    ensures out == Answer(true) <==> exists i: nat :: MatchesAt(stream.All(), needle, i)
  {
    hide ContainsFold, Lower, MatchesAt;
    ContainsFoldMeans(stream.All(), needle);
    NothingMatches(stream.All(), needle);
    var folded := Lower(needle);
    LowerTwice(needle);
    LowerLength(needle);
    if |folded| == 0 {
      return Answer(true);
    }
    var carry: seq<byte> := [];
    ghost var seen: seq<byte> := [];
    NothingInNothing(folded);
    var found;
    for i := 0 to |stream.pieces|
      invariant seen == Flatten(stream.pieces[..i]) && !ContainsFold(seen, folded)
      invariant carry == Tail(seen, |folded| - 1)
    {
      found, carry := Feed(carry, stream.pieces[i], folded, seen);
      assert stream.pieces[..i + 1][..i] == stream.pieces[..i];
      seen := seen + stream.pieces[i];
      if found {
        LaterStill(stream, i + 1, folded);
        SameFold(stream.All(), needle);
        return Answer(true);
      }
    }
    assert stream.pieces[..|stream.pieces|] == stream.pieces;
    found, carry := Feed(carry, stream.last, folded, seen);
    SameFold(stream.All(), needle);
    if found {
      return Answer(true);
    }
    out := if stream.broken then ReadError else Answer(false);
  }

  lemma NothingMatches(hay: seq<byte>, needle: seq<byte>)
    ensures needle == [] ==> MatchesAt(hay, needle, 0)
  {
  }

  lemma LowerLength(s: seq<byte>)
    ensures |Lower(s)| == |s|
  {
  }

  lemma SameFold(hay: seq<byte>, needle: seq<byte>)
    ensures ContainsFold(hay, Lower(needle)) <==> ContainsFold(hay, needle)
  {
    LowerTwice(needle);
  }

  /** What occurs in the first reads occurs in the whole text. */
  lemma {:induction false} LaterStill(stream: Stream, i: nat, needle: seq<byte>)
    requires i <= |stream.pieces| && needle != [] && ContainsFold(Flatten(stream.pieces[..i]), needle)
    ensures ContainsFold(stream.All(), needle)
    decreases |stream.pieces| - i
  {
    hide ContainsFold;
    if i < |stream.pieces| {
      SearchStep(Flatten(stream.pieces[..i]), stream.pieces[i], needle);
      assert stream.pieces[..i + 1][..i] == stream.pieces[..i];
      LaterStill(stream, i + 1, needle);
    } else {
      assert stream.pieces[..i] == stream.pieces;
      SearchStep(Flatten(stream.pieces), stream.last, needle);
    }
  }
}
