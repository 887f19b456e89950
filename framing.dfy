/** The two ways the driver cuts the serial byte stream into text lines.

    Bounded-chunk framing (`_read_serial`, and the word framing of
    `read_data`) treats one read on its own and throws away the first and
    the last piece, which are taken to be fragments. Continuous-carry
    framing (`read_offsets`) keeps the last, possibly partial, piece and
    puts it in front of the next read, so no line is lost between reads. */
module Framing {

  import opened Text

  const CRLF: string := "\r\n"
  const LF: string := "\n"

  /** `_read_serial`: drop the NULs of the decoded chunk, split it on
      "\r\n" and keep every piece but the first and the last. */
  function StatusLines(chunk: string): seq<string>
  {
    Interior(Split(Remove(chunk, NUL), CRLF))
  }

  /** `sep` occurs in `s` at offset `i`. */
  predicate OccursAt(s: string, sep: string, i: int)
  {
    0 <= i <= |s| - |sep| && s[i..i + |sep|] == sep
  }

  /** `sep` occurs in `s` somewhere. */
  ghost predicate Occurs(s: string, sep: string)
  {
    exists i :: OccursAt(s, sep, i)
  }

  lemma {:induction false} JoinEnds(pieces: seq<string>, sep: string)
    requires |pieces| >= 3
    ensures Join(pieces, sep)
      == pieces[0] + sep + Join(pieces[1..|pieces| - 1], sep) + sep + pieces[|pieces| - 1]
    decreases |pieces|
  {
    var tail := pieces[1..];
    if |pieces| == 3 {
      assert tail[1..] == [pieces[2]];
      assert Join(tail, sep) == pieces[1] + sep + pieces[2];
      assert pieces[1..|pieces| - 1] == [pieces[1]];
      assert Join(pieces[1..|pieces| - 1], sep) == pieces[1];
    } else {
      JoinEnds(tail, sep);
      assert tail[1..|tail| - 1] == pieces[2..|pieces| - 1];
      assert pieces[1..|pieces| - 1][1..] == pieces[2..|pieces| - 1];
      assert pieces[1..|pieces| - 1][0] == tail[0];
    }
  }

  /** The status lines of a chunk, put back between the two discarded
      fragments with "\r\n" terminators, give back the NUL-free text:
      nothing is reordered and nothing but NULs and the two fragments is
      lost. */
  lemma StatusLinesRebuild(chunk: string)
    ensures var pieces := Split(Remove(chunk, NUL), CRLF);
      |pieces| >= 3 ==>
        Remove(chunk, NUL)
          == pieces[0] + CRLF + Join(StatusLines(chunk), CRLF) + CRLF + pieces[|pieces| - 1]
  {
    var text := Remove(chunk, NUL);
    var pieces := Split(text, CRLF);
    if |pieces| >= 3 {
      assert Join(pieces, CRLF) == text by {
        SplitJoin(text, CRLF);
      }
      assert StatusLines(chunk) == pieces[1..|pieces| - 1];
      Rebuild(text, pieces, StatusLines(chunk));
    }
  }

  lemma Rebuild(text: string, pieces: seq<string>, lines: seq<string>)
    requires |pieces| >= 3 && Join(pieces, CRLF) == text && lines == pieces[1..|pieces| - 1]
    ensures text == pieces[0] + CRLF + Join(lines, CRLF) + CRLF + pieces[|pieces| - 1]
  {
    JoinEnds(pieces, CRLF);
  }

  lemma {:induction false} SplitFirstIsPrefix(s: string, sep: string)
    requires |sep| > 0
    ensures Split(s, sep)[0] <= s
    decreases |s|
  {
    if |s| > 0 && !(|sep| <= |s| && s[..|sep|] == sep) {
      SplitFirstIsPrefix(s[1..], sep);
    }
  }

  lemma SplitUnfold(s: string, sep: string)
    requires |sep| > 0 && |s| > 0
    ensures !(|sep| <= |s| && s[..|sep|] == sep) ==>
      var rest := Split(s[1..], sep);
      Split(s, sep) == [[s[0]] + rest[0]] + rest[1..]
  {
  }

  /** A piece that is not at the front of `s` cannot start with `sep`. */
  lemma GluedPieceComplete(s: string, sep: string, rest0: string)
    requires |sep| > 0 && |s| > 0
    requires !(|sep| <= |s| && s[..|sep|] == sep)
    requires rest0 <= s[1..] && !Occurs(rest0, sep)
    ensures !Occurs([s[0]] + rest0, sep)
  {
    var p := [s[0]] + rest0;
    forall i | 0 <= i <= |p| - |sep| ensures !OccursAt(p, sep, i) {
      if i == 0 {
        assert p[..|sep|] == s[..|sep|];
      } else {
        assert rest0[i - 1..i - 1 + |sep|] == p[i..i + |sep|];
        assert !OccursAt(rest0, sep, i - 1);
      }
    }
  }

  lemma {:induction false} SplitPiecesComplete(s: string, sep: string)
    requires |sep| > 0
    ensures forall k :: 0 <= k < |Split(s, sep)| ==> !Occurs(Split(s, sep)[k], sep)
    decreases |s|
  {
    if |s| == 0 {
      assert Split(s, sep) == [""];
      assert forall i :: !OccursAt("", sep, i);
    } else if |sep| <= |s| && s[..|sep|] == sep {
      SplitPiecesComplete(s[|sep|..], sep);
      var rest := Split(s[|sep|..], sep);
      assert Split(s, sep) == [""] + rest;
      assert forall i :: !OccursAt("", sep, i);
    } else {
      var rest := Split(s[1..], sep);
      SplitPiecesComplete(s[1..], sep);
      SplitFirstIsPrefix(s[1..], sep);
      SplitUnfold(s, sep);
      GluedPieceComplete(s, sep, rest[0]);
    }
  }

  /** Every status line is a complete line: it holds no "\r\n" and no NUL. */
  lemma StatusLinesComplete(chunk: string)
    ensures forall i :: 0 <= i < |StatusLines(chunk)| ==>
      !Occurs(StatusLines(chunk)[i], CRLF) && NUL !in StatusLines(chunk)[i]
  {
    var text := Remove(chunk, NUL);
    RemoveMembers(chunk, NUL);
    var pieces := Split(text, CRLF);
    SplitPiecesComplete(text, CRLF);
    SplitChars(text, CRLF);
    forall i | 0 <= i < |StatusLines(chunk)|
      ensures !Occurs(StatusLines(chunk)[i], CRLF) && NUL !in StatusLines(chunk)[i]
    {
      assert StatusLines(chunk)[i] == pieces[i + 1];
      assert NUL in pieces[i + 1] ==> NUL in text;
    }
  }

  lemma {:induction false} SplitChars(s: string, sep: string)
    requires |sep| > 0
    ensures forall k, x :: 0 <= k < |Split(s, sep)| && x in Split(s, sep)[k] ==> x in s
    decreases |s|
  {
    if |s| > 0 {
      if |sep| <= |s| && s[..|sep|] == sep {
        SplitChars(s[|sep|..], sep);
        assert Split(s, sep) == [""] + Split(s[|sep|..], sep);
        assert forall x :: x in s[|sep|..] ==> x in s;
      } else {
        SplitChars(s[1..], sep);
        SplitUnfold(s, sep);
        assert forall x :: x in s[1..] ==> x in s;
      }
    }
  }

  /** The text of a data burst before it is split: `read_data` drops NULs,
      '\r' and the '!' word markers, then strips white space at both ends. */
  function DataText(chunk: string): string
  {
    Strip(Remove(Remove(Remove(chunk, NUL), '\r'), '!'))
  }

  /** `read_data`'s framing: the cleaned burst split on "\n", without the
      first and the last piece. */
  function DataWords(chunk: string): seq<string>
  {
    Interior(Split(DataText(chunk), LF))
  }

  /** A data word never holds a line break, a '\r', a '!' or a NUL. */
  lemma DataWordsClean(chunk: string)
    ensures forall i :: 0 <= i < |DataWords(chunk)| ==>
      var w := DataWords(chunk)[i];
      '\n' !in w && '\r' !in w && '!' !in w && NUL !in w
  {
    var cleaned := Remove(Remove(Remove(chunk, NUL), '\r'), '!');
    RemoveMembers(chunk, NUL);
    RemoveMembers(Remove(chunk, NUL), '\r');
    RemoveMembers(Remove(Remove(chunk, NUL), '\r'), '!');
    var t := DataText(chunk);
    assert forall x :: x in t ==> x in cleaned by {
      forall x | x in t ensures x in cleaned {
        var i :| 0 <= i < |t| && t[i] == x;
        var t0 := StripStart(cleaned);
        StripStartSuffix(cleaned);
        StripEndPrefix(t0);
        assert t == t0[..|t|];
        assert t0[i] == x;
        assert cleaned[|cleaned| - |t0| + i] == x;
      }
    }
    var pieces := Split(t, LF);
    SplitPiecesFree(t, '\n');
    SplitChars(t, LF);
    forall i | 0 <= i < |DataWords(chunk)|
      ensures var w := DataWords(chunk)[i]; '\n' !in w && '\r' !in w && '!' !in w && NUL !in w
    {
      var w := pieces[i + 1];
      assert DataWords(chunk)[i] == w;
      forall x | x in w ensures x in cleaned {
        assert x in t;
      }
    }
  }

  /** `read_offsets` drops NULs and '\r' from each read before splitting. */
  function OffsetText(chunk: string): string
  {
    Remove(Remove(chunk, NUL), '\r')
  }

  lemma OffsetTextAppend(a: string, b: string)
    ensures OffsetText(a + b) == OffsetText(a) + OffsetText(b)
  {
    RemoveAppend(a, b, NUL);
    RemoveAppend(Remove(a, NUL), Remove(b, NUL), '\r');
  }

  /** Complete lines and the new leftover after one read. */
  datatype Carried = Carried(lines: seq<string>, leftover: string)

  /** Continuous-carry framing of one read: the leftover of the previous
      read is put in front, every piece but the last is a complete line,
      and the last piece is the new leftover. */
  function Carry(leftover: string, chunk: string): Carried
  {
    var pieces := Split(leftover + OffsetText(chunk), LF);
    Carried(pieces[..|pieces| - 1], pieces[|pieces| - 1])
  }

  function Concat(chunks: seq<string>): string
    decreases |chunks|
  {
    if chunks == [] then "" else chunks[0] + Concat(chunks[1..])
  }

  /** Continuous-carry framing of a sequence of reads. */
  function CarryAll(leftover: string, chunks: seq<string>): Carried
    decreases |chunks|
  {
    if chunks == [] then Carried([], leftover)
    else
      var first := Carry(leftover, chunks[0]);
      var rest := CarryAll(first.leftover, chunks[1..]);
      Carried(first.lines + rest.lines, rest.leftover)
  }

  /** Gluing a break-free leftover in front of a text: its pieces are the
      text's pieces with the leftover stuck to the first one. */
  lemma PrependLeftover(r: string, t: string)
    requires '\n' !in r
    ensures var Q := Split(t, LF); Split(r + t, LF) == [r + Q[0]] + Q[1..]
  {
    SplitWithout(r, '\n');
    SplitAppend(r, t, '\n');
  }

  lemma LeftoverGlued(head: string, tail: string, more: seq<string>)
    requires var P := Split(head, LF); more == Split(P[|P| - 1] + tail, LF)
    requires var P := Split(head, LF); '\n' !in P[|P| - 1]
    ensures var P, Q := Split(head, LF), Split(tail, LF); more == [P[|P| - 1] + Q[0]] + Q[1..]
  {
    var P := Split(head, LF);
    PrependLeftover(P[|P| - 1], tail);
  }

  lemma SplitAppendLF(head: string, tail: string)
    ensures var P, Q := Split(head, LF), Split(tail, LF);
      Split(head + tail, LF) == P[..|P| - 1] + [P[|P| - 1] + Q[0]] + Q[1..]
  {
    SplitAppend(head, tail, '\n');
  }

  /** The step of `CarryAllIsSplit` for one more read, stated over plain
      texts. */
  lemma CarryStep(head: string, tail: string, more: seq<string>)
    requires var P := Split(head, LF); more == Split(P[|P| - 1] + tail, LF)
    requires var P := Split(head, LF); '\n' !in P[|P| - 1]
    ensures var P := Split(head, LF); P[..|P| - 1] + more == Split(head + tail, LF)
  {
    LeftoverGlued(head, tail, more);
    SplitAppendLF(head, tail);
    Regroup(Split(head, LF), Split(tail, LF), more, Split(head + tail, LF));
  }

  lemma Regroup(P: seq<string>, Q: seq<string>, more: seq<string>, whole: seq<string>)
    requires |P| >= 1 && |Q| >= 1
    requires more == [P[|P| - 1] + Q[0]] + Q[1..]
    requires whole == P[..|P| - 1] + [P[|P| - 1] + Q[0]] + Q[1..]
    ensures P[..|P| - 1] + more == whole
  {
  }

  /** One read's lines are all its pieces but the last, which is carried
      and holds no line break. */
  lemma CarryPieces(leftover: string, chunk: string)
    ensures var P, c := Split(leftover + OffsetText(chunk), LF), Carry(leftover, chunk);
      c.lines == P[..|P| - 1] && c.leftover == P[|P| - 1] && '\n' !in c.leftover
  {
    SplitPiecesFree(leftover + OffsetText(chunk), '\n');
  }

  /** The lines delivered over any number of reads, followed by the final
      leftover, are exactly the pieces of the whole cleaned stream. */
  lemma {:induction false} CarryAllIsSplit(leftover: string, chunks: seq<string>)
    requires '\n' !in leftover
    ensures var r := CarryAll(leftover, chunks);
      r.lines + [r.leftover] == Split(leftover + OffsetText(Concat(chunks)), LF)
    decreases |chunks|
  {
    if chunks == [] {
      assert OffsetText("") == "";
      assert leftover + "" == leftover;
      SplitWithout(leftover, '\n');
    } else {
      var head := leftover + OffsetText(chunks[0]);
      var tail := OffsetText(Concat(chunks[1..]));
      var P := Split(head, LF);
      var first := Carry(leftover, chunks[0]);
      var rest := CarryAll(first.leftover, chunks[1..]);
      var more := rest.lines + [rest.leftover];
      CarryPieces(leftover, chunks[0]);
      assert more == Split(P[|P| - 1] + tail, LF) by {
        CarryAllIsSplit(first.leftover, chunks[1..]);
      }
      assert P[..|P| - 1] + more == Split(head + tail, LF) by {
        CarryStep(head, tail, more);
      }
      var r := CarryAll(leftover, chunks);
      assert r.lines == first.lines + rest.lines && r.leftover == rest.leftover;
      assert r.lines + [r.leftover] == first.lines + more by {
        AppendAssoc(first.lines, rest.lines, [rest.leftover]);
      }
      assert leftover + OffsetText(Concat(chunks)) == head + tail by {
        OffsetTextAppend(chunks[0], Concat(chunks[1..]));
      }
    }
  }

  /** How the stream happens to be cut into reads does not change the
      lines continuous-carry framing delivers, nor what is left over at
      the end.  `read_offsets` frames this way only once a sample has been
      counted; before that it drops the first piece of every read, and
      there the cut does matter. */
  lemma CarryIgnoresReadBoundaries(leftover: string, a: seq<string>, b: seq<string>)
    requires '\n' !in leftover
    requires Concat(a) == Concat(b)
    ensures CarryAll(leftover, a) == CarryAll(leftover, b)
  {
    var ra, rb := CarryAll(leftover, a), CarryAll(leftover, b);
    CarryAllIsSplit(leftover, a);
    CarryAllIsSplit(leftover, b);
    var s := ra.lines + [ra.leftover];
    assert s == rb.lines + [rb.leftover];
    assert ra.lines == s[..|s| - 1] == rb.lines;
  }
}
