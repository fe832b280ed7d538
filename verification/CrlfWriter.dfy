/** The streaming writer of PGP/MIME bodies, which turns every line break into CRLF. */
module CrlfWriter {
  import opened Bytes

  const CR: byte := 13
  const LF: byte := 10

  // ---- the whole-input form ----

  /** `strings.ReplaceAll(s, "\r\n", "\n")`. */
  function JoinCrLf(s: seq<byte>): seq<byte> {
    if s == [] then []
    else if |s| >= 2 && s[0] == CR && s[1] == LF then [LF] + JoinCrLf(s[2..])
    else [s[0]] + JoinCrLf(s[1..])
  }

  function Unit(b: byte): byte {
    if b == CR then LF else b
  }

  /** `strings.ReplaceAll(s, "\r", "\n")`. */
  function CrToLf(s: seq<byte>): seq<byte> {
    if s == [] then [] else [Unit(s[0])] + CrToLf(s[1..])
  }

  /** `strings.TrimRight(s, "\n")`. */
  function TrimRight(s: seq<byte>): (t: seq<byte>)
    ensures t <= s
    ensures t != [] ==> t[|t| - 1] != LF
  {
    if s != [] && s[|s| - 1] == LF then TrimRight(s[..|s| - 1]) else s
  }

  /** `strings.ReplaceAll(s, "\n", "\r\n")`. */
  function LfToCrLf(s: seq<byte>): seq<byte> {
    if s == [] then [] else (if s[0] == LF then [CR, LF] else [s[0]]) + LfToCrLf(s[1..])
  }

  /** The text with every kind of line break as a single LF. */
  function Lines(s: seq<byte>): seq<byte> {
    CrToLf(JoinCrLf(s))
  }

  /** `normalizeCRLF`. */
  function NormalizeCrLf(input: seq<byte>): seq<byte> {
    var text := TrimRight(Lines(input));
    if text == [] then [] else LfToCrLf(text)
  }

  function Breaks(n: nat): seq<byte> {
    if n == 0 then [] else Breaks(n - 1) + [CR, LF]
  }

  /** How many line breaks end the text. */
  function TrailingBreaks(input: seq<byte>): nat {
    |Lines(input)| - |TrimRight(Lines(input))|
  }

  /** No CR without an LF after it, no LF without a CR before it. */
  ghost predicate OnlyCrLf(s: seq<byte>) {
    && (forall i | 0 <= i < |s| && s[i] == CR :: i + 1 < |s| && s[i + 1] == LF)
    && (forall i | 0 <= i < |s| && s[i] == LF :: i > 0 && s[i - 1] == CR)
  }

  // ---- the writer ----

  class Writer {
    /** What has been passed on to the part being written. */
    var emitted: seq<byte>
    var pendingNewlines: nat
    var prevCr: bool
    var closed: bool
    /** Everything written so far. */
    ghost var input: seq<byte>

    constructor ()
      ensures Valid() && input == [] && !closed
    {
      emitted, pendingNewlines, prevCr, closed, input := [], 0, false, false, [];
    }

    /** The output owes the pending breaks, and nothing is decided yet about a CR at the end. */
    ghost predicate Valid()
      reads this
    {
      && (prevCr ==> input != [] && input[|input| - 1] == CR)
      && (!prevCr && !closed && input != [] ==> input[|input| - 1] != CR)
      && (closed ==> !prevCr && pendingNewlines == 0)
      && emitted + Breaks(pendingNewlines)
         == LfToCrLf(Lines(if prevCr then input[..|input| - 1] else input))
    }

    method QueueNewline()
      modifies `pendingNewlines
      ensures pendingNewlines == old(pendingNewlines) + 1
    {
      pendingNewlines := pendingNewlines + 1;
    }

    method FlushPendingNewlines()
      modifies `emitted, `pendingNewlines
      ensures pendingNewlines == 0 && emitted == old(emitted) + Breaks(old(pendingNewlines))
    {
      for i := 0 to pendingNewlines
        invariant emitted == old(emitted) + Breaks(i) && pendingNewlines == old(pendingNewlines)
      {
        emitted := emitted + [CR, LF];
      }
      pendingNewlines := 0;
    }

    /** One byte of `Write`. */
    method WriteByte(b: byte)
      requires Valid() && !closed
      modifies this
      ensures Valid() && !closed && input == old(input) + [b]
    {
      hide Lines, LfToCrLf, Breaks;
      if prevCr {
        PendingCr(input, emitted, pendingNewlines);
        QueueNewline();
        prevCr := false;
        if b == LF {
          input := input + [b];
          return;
        }
      }
      PlainByte(input, emitted, pendingNewlines, b);
      if b == CR {
        prevCr := true;
      } else if b == LF {
        QueueNewline();
      } else {
        FlushPendingNewlines();
        emitted := emitted + [b];
      }
      input := input + [b];
      assert input[..|input| - 1] == old(input);
    }

    method Write(p: seq<byte>) returns (ok: bool)
      requires Valid()
      modifies this
      ensures Valid() && closed == old(closed) && ok == !old(closed)
      ensures input == if ok then old(input) + p else old(input)
      ensures !ok ==> emitted == old(emitted)
    {
      hide Lines, LfToCrLf, Breaks;
      if closed {
        return false;
      }
      for i := 0 to |p|
        invariant Valid() && !closed && input == old(input) + p[..i]
      {
        WriteByte(p[i]);
        assert p[..i + 1] == p[..i] + [p[i]];
      }
      assert p[..|p|] == p;
      return true;
    }

    /** After `Close` the part holds the normalised input and one CRLF for each break at its end. */
    method Close()
      requires Valid()
      modifies this
      ensures Valid() && closed && input == old(input)
      ensures old(closed) ==> emitted == old(emitted)
      ensures emitted == NormalizeCrLf(input) + Breaks(TrailingBreaks(input))
      ensures OnlyCrLf(emitted)
    {
      hide Lines, LfToCrLf, TrimRight, NormalizeCrLf, OnlyCrLf;
      if !closed {
        closed := true;
        if prevCr {
          ClosingCr(input);
          QueueNewline();
          prevCr := false;
        }
        FlushPendingNewlines();
      }
      assert emitted + Breaks(0) == emitted;
      BodyIsNormalised(input);
      LinesHaveNoCr(input);
      ExpandedIsClean(Lines(input));
    }
  }

  /** A pending CR is settled as one more break, whether or not an LF follows. */
  lemma PendingCr(input: seq<byte>, emitted: seq<byte>, pending: nat)
    requires EndsInCr(input)
    requires emitted + Breaks(pending) == LfToCrLf(Lines(input[..|input| - 1]))
    ensures emitted + Breaks(pending + 1) == LfToCrLf(Lines(input))
    ensures Lines(input + [LF]) == Lines(input)
  {
    hide Lines, LfToCrLf;
    ClosingCr(input);
    LinesAppend(input, LF);
  }

  /** One byte when no CR is pending, except an LF after a CR. */
  lemma PlainByte(input: seq<byte>, emitted: seq<byte>, pending: nat, b: byte)
    requires emitted + Breaks(pending) == LfToCrLf(Lines(input)) && !(EndsInCr(input) && b == LF)
    ensures b == LF ==> emitted + Breaks(pending + 1) == LfToCrLf(Lines(input + [b]))
    ensures b != LF && b != CR ==> emitted + Breaks(pending) + [b] + Breaks(0) == LfToCrLf(Lines(input + [b]))
  {
    hide Lines, LfToCrLf;
    LinesAppend(input, b);
    LfToCrLfAppend(Lines(input), Unit(b));
  }

  /** A CR at the very end is a line break too. */
  lemma ClosingCr(input: seq<byte>)
    requires input != [] && input[|input| - 1] == CR
    ensures LfToCrLf(Lines(input)) == LfToCrLf(Lines(input[..|input| - 1])) + [CR, LF]
  {
    hide Lines, LfToCrLf;
    var settled := input[..|input| - 1];
    LinesAppend(settled, CR);
    assert settled + [CR] == input;
    LfToCrLfAppend(Lines(settled), LF);
  }

  // ---- why the two forms agree ----

  ghost predicate EndsInCr(s: seq<byte>) {
    s != [] && s[|s| - 1] == CR
  }

  lemma {:induction false} JoinPair(s: seq<byte>)
    ensures JoinCrLf(s + [CR, LF]) == JoinCrLf(s) + [LF]
  {
    if s == [] {
      assert [CR, LF][2..] == [];
    } else if |s| >= 2 && s[0] == CR && s[1] == LF {
      JoinPair(s[2..]);
      assert (s + [CR, LF])[2..] == s[2..] + [CR, LF];
    } else {
      JoinPair(s[1..]);
      assert (s + [CR, LF])[1..] == s[1..] + [CR, LF];
    }
  }

  lemma {:induction false} JoinAppend(s: seq<byte>, b: byte)
    requires !(EndsInCr(s) && b == LF)
    ensures JoinCrLf(s + [b]) == JoinCrLf(s) + [b]
  {
    if s == [] {
    } else if |s| >= 2 && s[0] == CR && s[1] == LF {
      JoinAppend(s[2..], b);
      assert (s + [b])[2..] == s[2..] + [b];
    } else {
      JoinAppend(s[1..], b);
      assert (s + [b])[1..] == s[1..] + [b];
    }
  }

  lemma {:induction false} CrToLfAppend(s: seq<byte>, t: seq<byte>)
    ensures CrToLf(s + t) == CrToLf(s) + CrToLf(t)
  {
    if s == [] {
      assert s + t == t;
    } else {
      CrToLfAppend(s[1..], t);
      assert (s + t)[1..] == s[1..] + t;
    }
  }

  /** One more byte is one more unit of text, except for the LF of a CRLF. */
  lemma LinesAppend(s: seq<byte>, b: byte)
    ensures Lines(s + [b]) == if s != [] && s[|s| - 1] == CR && b == LF then Lines(s) else Lines(s) + [Unit(b)]
  {
    hide JoinCrLf;
    if EndsInCr(s) && b == LF {
      var r := s[..|s| - 1];
      JoinPair(r);
      JoinAppend(r, CR);
      assert r + [CR] == s && s + [LF] == r + [CR, LF];
      CrToLfAppend(JoinCrLf(r), [LF]);
      CrToLfAppend(JoinCrLf(r), [CR]);
    } else {
      JoinAppend(s, b);
      CrToLfAppend(JoinCrLf(s), [b]);
    }
  }

  lemma {:induction false} LfToCrLfAppend(s: seq<byte>, b: byte)
    ensures LfToCrLf(s + [b]) == LfToCrLf(s) + if b == LF then [CR, LF] else [b]
  {
    if s != [] {
      LfToCrLfAppend(s[1..], b);
      assert (s + [b])[1..] == s[1..] + [b];
    }
  }

  lemma {:induction false} TrimmedBreaks(t: seq<byte>)
    ensures LfToCrLf(t) == LfToCrLf(TrimRight(t)) + Breaks(|t| - |TrimRight(t)|)
  {
    if t != [] && t[|t| - 1] == LF {
      var s := t[..|t| - 1];
      TrimmedBreaks(s);
      LfToCrLfAppend(s, LF);
      assert s + [LF] == t;
    }
  }

  /** The expanded text is the normalised input followed by its trailing breaks. */
  lemma BodyIsNormalised(input: seq<byte>)
    ensures LfToCrLf(Lines(input)) == NormalizeCrLf(input) + Breaks(TrailingBreaks(input))
  {
    TrimmedBreaks(Lines(input));
  }

  lemma {:induction false} UnitsHaveNoCr(s: seq<byte>)
    ensures CR !in CrToLf(s)
  {
    if s != [] {
      UnitsHaveNoCr(s[1..]);
    }
  }

  lemma LinesHaveNoCr(input: seq<byte>)
    ensures CR !in Lines(input)
  {
    UnitsHaveNoCr(JoinCrLf(input));
  }

  lemma {:induction false} ExpandedIsClean(t: seq<byte>)
    requires CR !in t
    ensures OnlyCrLf(LfToCrLf(t))
  {
    if t != [] {
      ExpandedIsClean(t[1..]);
    }
  }

  /** However the input is cut into writes, the body is the same. */
  method Render(chunks: seq<seq<byte>>) returns (body: seq<byte>)
    ensures body == NormalizeCrLf(Flatten(chunks)) + Breaks(TrailingBreaks(Flatten(chunks)))
    ensures OnlyCrLf(body)
  {
    hide Writer.Valid, Lines, TrimRight, NormalizeCrLf, Breaks, OnlyCrLf;
    var w := new Writer();
    for i := 0 to |chunks|
      invariant w.Valid() && !w.closed && w.input == Flatten(chunks[..i])
    {
      var ok := w.Write(chunks[i]);
      assert chunks[..i + 1][..i] == chunks[..i];
    }
    assert chunks[..|chunks|] == chunks;
    w.Close();
    body := w.emitted;
  }

  /** Normalising is idempotent: a normalised body is left as it is. */
  lemma NormalisedStays(input: seq<byte>)
    ensures NormalizeCrLf(NormalizeCrLf(input)) == NormalizeCrLf(input)
  {
    var t := TrimRight(Lines(input));
    TrimmedHasNoCr(input);
    LinesOfExpanded(t);
  }

  lemma TrimmedHasNoCr(input: seq<byte>)
    ensures CR !in TrimRight(Lines(input))
  {
    LinesHaveNoCr(input);
  }

  lemma {:induction false} LinesOfExpanded(t: seq<byte>)
    requires CR !in t
    ensures Lines(LfToCrLf(t)) == t
  {
    if t != [] {
      var n := |t| - 1;
      var s := t[..n];
      LinesOfExpanded(s);
      LfToCrLfAppend(s, t[n]);
      assert s + [t[n]] == t;
      var e := LfToCrLf(s);
      ExpandedIsClean(s);
      if t[n] == LF {
        LinesAppend(e, CR);
        LinesAppend(e + [CR], LF);
        assert e + [CR] + [LF] == e + [CR, LF];
      } else {
        LinesAppend(e, t[n]);
      }
    }
  }
}
