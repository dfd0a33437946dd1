/** Commands of the mux that send text: gett, echo and help; and where the client stops reading it. */
module MuxTexts {
  import opened Bytes
  import opened Sequences
  import opened Mux
  import opened MuxProofs
  import opened MuxRuns

  /** C's string is what stands before the first NUL. */
  lemma {:induction false} CStringIs(s: seq<Byte>, n: nat)
    requires n <= |s| && (forall i | 0 <= i < n :: s[i] != 0) && (n < |s| ==> s[n] == 0)
    ensures CString(s) == s[..n]
    decreases n
  {
    if n > 0 {
      CStringIs(s[1..], n - 1);
      assert s[..n] == [s[0]] + s[1..][..n - 1];
    }
  }

  /** Subcommands 1 and 2: the text up to its first NUL goes to the open file or else to standard
      output, and to standard error. */
  lemma TextsArrive(io: IO, pay: seq<Byte>, n: nat)
    requires n <= |pay| && (forall i | 0 <= i < n :: pay[i] != 0) && (n < |pay| ==> pay[n] == 0)
    ensures Effect(io, '2', pay) == io.(err := io.err + pay[..n])
    ensures io.file.NoFile? ==> Effect(io, '1', pay) == io.(out := io.out + pay[..n])
    ensures io.file.Writing? ==> Effect(io, '1', pay) == io.(file := Writing(io.file.data + pay[..n]))
    ensures io.file.Reading? ==> Effect(io, '1', pay) == io
  {
    CStringIs(pay, n);
  }

  // ----- Texts to standard output: help, echo and vecho -----

  function TextOps(texts: seq<seq<Byte>>): seq<(char, seq<Byte>)> {
    if texts == [] then [] else [('1', texts[0])] + TextOps(texts[1..])
  }

  /** What the client takes of them. */
  function Seen(texts: seq<seq<Byte>>): seq<Byte> { if texts == [] then [] else CString(texts[0]) + Seen(texts[1..]) }

  predicate AllNulFree(texts: seq<seq<Byte>>) { forall k | 0 <= k < |texts| :: 0 !in texts[k] }

  /** The client sees it all if and only if there is no NUL in it. */
  lemma {:induction false} AllSeen(texts: seq<seq<Byte>>)
    ensures |Seen(texts)| <= |Concat(texts)|
    ensures AllNulFree(texts) <==> Seen(texts) == Concat(texts)
    ensures AllNulFree(texts) <==> |Seen(texts)| == |Concat(texts)|
    decreases |texts|
  {
    if texts != [] {
      CStringWhole(texts[0]);
      AllSeen(texts[1..]);
      assert AllNulFree(texts) <==> NulFree(texts[0]) && AllNulFree(texts[1..]) by { FirstAndRest(texts); }
    }
  }

  lemma FirstAndRest(texts: seq<seq<Byte>>)
    requires texts != []
    ensures AllNulFree(texts) <==> 0 !in texts[0] && AllNulFree(texts[1..])
  {
    if 0 !in texts[0] && AllNulFree(texts[1..]) {
      forall k | 0 <= k < |texts| ensures 0 !in texts[k] { if k > 0 { assert texts[1..][k - 1] == texts[k]; } }
    }
  }

  lemma {:induction false} TextsShown(texts: seq<seq<Byte>>, io: IO)
    requires io.file.NoFile?
    ensures Sendable(io, TextOps(texts)) && Effects(io, TextOps(texts)) == io.(out := io.out + Seen(texts))
    decreases |texts|
  {
    var ops := TextOps(texts);
    if texts == [] {
      assert io.out + [] == io.out;
    } else {
      assert ops[0] == ('1', texts[0]) && ops[1..] == TextOps(texts[1..]);
      TextsShown(texts[1..], Effect(io, '1', texts[0]));
      Reassociate(io.out, CString(texts[0]), Seen(texts[1..]));
    }
  }

  /** help, echo and vecho: a finished session has written their texts to standard output and
      changed nothing else; all of them if and only if no text has a NUL. */
  lemma TextsAreShown(texts: seq<seq<Byte>>, verdict: seq<Byte>, io: IO, schedule: seq<Actor>)
    requires verdict != [] && io.file.NoFile?
    ensures var s := Run(Start(Emits(TextOps(texts), Exit(verdict)), io), schedule);
            s.client.Exited? ==> s.client.verdict == verdict && s.io == io.(out := io.out + Seen(texts))
    ensures AllNulFree(texts) <==> Seen(texts) == Concat(texts)
  {
    TextsShown(texts, io);
    EmitsMean(TextOps(texts), verdict, io, []);
    SessionIsRight(Emits(TextOps(texts), Exit(verdict)), io, schedule);
    AllSeen(texts);
  }

  // ----- gett -----

  /** gett: each line of the remote file as a text, with a carriage return. */
  function GetT(dest: seq<Byte>, lines: seq<seq<Byte>>, verdict: seq<Byte>): seq<Instr> {
    Emits([('a', dest)] + TextOps(Returned(lines)) + [('c', [])], Exit(verdict))
  }

  function Returned(lines: seq<seq<Byte>>): seq<seq<Byte>> {
    if lines == [] then [] else [lines[0] + [13]] + Returned(lines[1..])
  }

  lemma {:induction false} TextsSaved(texts: seq<seq<Byte>>, io: IO)
    requires io.file.Writing?
    ensures var ops := TextOps(texts) + [('c', [])];
            Sendable(io, ops) && Effects(io, ops) == io.(file := NoFile, saved := io.saved + [io.file.data + Seen(texts)])
    decreases |texts|
  {
    var ops := TextOps(texts) + [('c', [])];
    if texts == [] {
      assert ops == [('c', [])] && ops[1..] == [];
      assert io.file.data + [] == io.file.data;
    } else {
      TextsSaved(texts[1..], Effect(io, '1', texts[0]));
      assert ops[0] == ('1', texts[0]) && ops[1..] == TextOps(texts[1..]) + [('c', [])];
      Reassociate(io.file.data, CString(texts[0]), Seen(texts[1..]));
    }
  }

  /** gett: a finished session has saved one file, and nothing else has changed on the client; it is
      the lines, each with a carriage return, if and only if none has a NUL. */
  lemma GetTCopies(dest: seq<Byte>, lines: seq<seq<Byte>>, verdict: seq<Byte>, io: IO, schedule: seq<Actor>)
    requires verdict != []
    ensures var s := Run(Start(GetT(dest, lines, verdict), io), schedule);
            s.client.Exited? ==> s.client.verdict == verdict && s.io == io.(file := NoFile, saved := io.saved + [Seen(Returned(lines))])
    ensures AllNulFree(lines) <==> Seen(Returned(lines)) == Concat(Returned(lines))
  {
    var texts := Returned(lines);
    var rest := TextOps(texts) + [('c', [])];
    var ops := [('a', dest)] + TextOps(texts) + [('c', [])];
    assert ops[0] == ('a', dest) && ops[1..] == rest;
    TextsSaved(texts, Effect(io, 'a', dest));
    assert [] + Seen(texts) == Seen(texts);
    EmitsMean(ops, verdict, io, []);
    SessionIsRight(GetT(dest, lines, verdict), io, schedule);
    AllSeen(texts);
    ReturnsAreNoNul(lines);
  }

  lemma {:induction false} ReturnsAreNoNul(lines: seq<seq<Byte>>)
    ensures AllNulFree(lines) <==> AllNulFree(Returned(lines))
  {
    if lines != [] {
      ReturnsAreNoNul(lines[1..]);
      FirstAndRest(lines);
      FirstAndRest(Returned(lines));
      assert 0 in lines[0] + [13] <==> 0 in lines[0];
    }
  }
}
