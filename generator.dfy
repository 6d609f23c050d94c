/** Prompt assembly and the parsing of a generated solution into cited steps.
    The language model itself is a parameter. */
module Generator {
  import opened Text
  import opened Meta
  import Retrieve

  // ---------------------------------------------------------------------------
  // Citation extraction: the matches of `\[doc:[^\]]+\]`, left to right

  /** The length of the citation that starts `s`: "[doc:", one or more characters other
      than ']', then ']'; 0 when `s` does not start with one. */
  function CitationLength(s: string): (n: nat)
    ensures n == 0 || (7 <= n <= |s|)
  {
    if |s| >= 5 && s[..5] == "[doc:" then
      match IndexOfChar(s[5..], ']')
      case Some(k) => if k >= 1 then 5 + k + 1 else 0
      case None => 0
    else 0
  }

  /** A string the citation pattern matches in full. */
  predicate WellFormedCitation(c: string) {
    |c| >= 7 && c[..5] == "[doc:" && c[|c| - 1] == ']' && ']' !in c[5..|c| - 1]
  }

  /** `re.findall(r'\[doc:[^\]]+\]', text)`: scan left to right; after a match, resume
      after it, otherwise move on one character. */
  function ExtractCitations(s: string): (cs: seq<string>)
    ensures forall k :: 0 <= k < |cs| ==> WellFormedCitation(cs[k])
    decreases |s|
  {
    if s == [] then []
    else
      var n := CitationLength(s);
      if n > 0 then
        var k := IndexOfChar(s[5..], ']').value;
        assert s[..n][..5] == "[doc:" && s[..n][5..n - 1] == s[5..][..k];
        [s[..n]] + ExtractCitations(s[n..])
      else ExtractCitations(s[1..])
  }

  /** Every extracted citation occurs in the text. */
  lemma {:induction false} CitationsOccur(s: string)
    ensures forall c :: c in ExtractCitations(s) ==> Contains(s, c)
    decreases |s|
  {
    if s != [] {
      var n := CitationLength(s);
      var rest := if n > 0 then s[n..] else s[1..];
      CitationsOccur(rest);
      forall c | c in ExtractCitations(rest) ensures Contains(s, c) {
        ContainsConcat(s[..|s| - |rest|], rest, c);
        assert s[..|s| - |rest|] + rest == s;
      }
      if n > 0 {
        ContainsConcat([], s, s[..n]);
        assert s[..n] <= s;
        ContainsIffOccurs(s, s[..n]);
        assert OccursAt(s, s[..n], 0);
      }
    }
  }

  /** A well-formed citation is recognised in full at the start of a text. */
  lemma CitationLengthOfCitation(c: string, rest: string)
    requires WellFormedCitation(c)
    ensures CitationLength(c + rest) == |c|
  {
    var s := c + rest;
    assert s[..5] == c[..5];
    var t := s[5..];
    var inner := c[5..|c| - 1];
    forall i | 0 <= i < |c| - 6 ensures t[i] != ']' {
      assert t[i] == inner[i];
    }
    assert t[|c| - 6] == c[|c| - 1];
    IndexOfCharAt(t, ']', |c| - 6);
  }

  /** The pattern finds a lone citation, and text before and after it is scanned on. */
  lemma CitationThenRest(c: string, rest: string)
    requires WellFormedCitation(c)
    ensures ExtractCitations(c + rest) == [c] + ExtractCitations(rest)
  {
    CitationLengthOfCitation(c, rest);
    var s := c + rest;
    assert s[..|c|] == c && s[|c|..] == rest;
  }

  /** Text without '[' holds no citation before what follows it. */
  lemma {:induction false} NoBracketPrefix(a: string, rest: string)
    requires '[' !in a
    ensures ExtractCitations(a + rest) == ExtractCitations(rest)
    decreases |a|
  {
    if a == [] {
      assert a + rest == rest;
    } else {
      var s := a + rest;
      assert s[0] == a[0];
      if |s| >= 5 {
        assert s[..5][0] == s[0];
      }
      assert CitationLength(s) == 0;
      SkipNonCitation(s);
      assert s[1..] == a[1..] + rest;
      NoBracketPrefix(a[1..], rest);
    }
  }

  /** Where no citation starts, the scan moves on one character. */
  lemma SkipNonCitation(s: string)
    requires s != [] && CitationLength(s) == 0
    ensures ExtractCitations(s) == ExtractCitations(s[1..])
  {
  }

  /** A citation alone is extracted as itself. */
  lemma CitationRoundTrip(c: string)
    requires WellFormedCitation(c)
    ensures ExtractCitations(c) == [c]
  {
    CitationThenRest(c, "");
    assert c + "" == c;
  }

  /** A match of the citation pattern starts at position `i` of `s` and is `n` long. */
  predicate MatchAt(s: string, i: nat, n: nat) {
    i + n <= |s| && WellFormedCitation(s[i..i + n])
  }

  /** Each of `cs` is a match of the pattern at the matching one of positions `ps`. */
  predicate Located(s: string, cs: seq<string>, ps: seq<nat>) {
    |ps| == |cs| &&
    forall k :: 0 <= k < |cs| ==> MatchAt(s, ps[k], |cs[k]|) && cs[k] == s[ps[k]..ps[k] + |cs[k]|]
  }

  /** Each match starts after the previous one ends. */
  predicate Disjoint(cs: seq<string>, ps: seq<nat>) {
    |ps| == |cs| && forall k :: 0 <= k < |cs| - 1 ==> ps[k] + |cs[k]| <= ps[k + 1]
  }

  /** Every match of the pattern in `s` is one of them or starts inside one of them. */
  ghost predicate Complete(s: string, cs: seq<string>, ps: seq<nat>) {
    |ps| == |cs| &&
    forall i: nat, n: nat :: MatchAt(s, i, n) ==>
      i in ps || exists k :: 0 <= k < |ps| && ps[k] < i < ps[k] + |cs[k]|
  }

  /** `cs` are the matches `re.findall` reports, found at positions `ps`: left to right,
      none overlapping the one before, and every match of the pattern not inside an
      earlier one. */
  ghost predicate FindAll(s: string, cs: seq<string>, ps: seq<nat>) {
    Located(s, cs, ps) && Disjoint(cs, ps) && Complete(s, cs, ps)
  }

  function Shift(ps: seq<nat>, d: nat): (r: seq<nat>)
    ensures |r| == |ps|
    ensures forall k :: 0 <= k < |ps| ==> r[k] == ps[k] + d
  {
    seq(|ps|, k requires 0 <= k < |ps| => ps[k] + d)
  }

  /** A match in the text after `d` characters is a match in the text, `d` further on. */
  lemma MatchShift(s: string, d: nat, i: nat, n: nat)
    requires d <= |s|
    ensures MatchAt(s[d..], i, n) <==> MatchAt(s, i + d, n)
    ensures MatchAt(s[d..], i, n) ==> s[d..][i..i + n] == s[i + d..i + d + n]
  {
    if i + d + n <= |s| {
      assert s[d..][i..i + n] == s[i + d..i + d + n];
    }
  }

  /** A match at the very start of a text is the one the scan recognises there. */
  lemma MatchAtStart(s: string, n: nat)
    requires MatchAt(s, 0, n)
    ensures CitationLength(s) == n
  {
    assert s[..n] + s[n..] == s;
    assert s[0..n] == s[..n];
    CitationLengthOfCitation(s[..n], s[n..]);
  }

  lemma LocatedShift(s: string, d: nat, cs: seq<string>, ps: seq<nat>)
    requires d <= |s| && Located(s[d..], cs, ps)
    ensures Located(s, cs, Shift(ps, d))
  {
    var ps2 := Shift(ps, d);
    forall k | 0 <= k < |cs|
      ensures MatchAt(s, ps2[k], |cs[k]|) && cs[k] == s[ps2[k]..ps2[k] + |cs[k]|]
    {
      MatchShift(s, d, ps[k], |cs[k]|);
    }
  }

  lemma LocatedCons(s: string, n: nat, cs: seq<string>, ps: seq<nat>)
    requires 0 < n <= |s| && WellFormedCitation(s[..n]) && Located(s, cs, ps)
    ensures Located(s, [s[..n]] + cs, [0] + ps)
  {
    assert s[0..n] == s[..n];
    var cs2, ps2 := [s[..n]] + cs, [0] + ps;
    forall k | 1 <= k < |cs2|
      ensures MatchAt(s, ps2[k], |cs2[k]|) && cs2[k] == s[ps2[k]..ps2[k] + |cs2[k]|]
    {
      assert cs2[k] == cs[k - 1] && ps2[k] == ps[k - 1];
    }
  }

  lemma DisjointShift(cs: seq<string>, ps: seq<nat>, d: nat)
    requires Disjoint(cs, ps)
    ensures Disjoint(cs, Shift(ps, d))
  {
  }

  lemma DisjointCons(c: string, cs: seq<string>, ps: seq<nat>)
    requires Disjoint(cs, ps) && (|ps| > 0 ==> |c| <= ps[0])
    ensures Disjoint([c] + cs, [0] + ps)
  {
    var cs2, ps2 := [c] + cs, [0] + ps;
    forall k | 1 <= k < |cs2| - 1 ensures ps2[k] + |cs2[k]| <= ps2[k + 1] {
      assert ps2[k] == ps[k - 1] && ps2[k + 1] == ps[k] && cs2[k] == cs[k - 1];
    }
  }

  /** Completeness survives reading the text from `d` on, for the matches from `d` on. */
  lemma CompleteShift(s: string, d: nat, cs: seq<string>, ps: seq<nat>, i: nat, m: nat)
    requires d <= i && MatchAt(s, i, m) && d <= |s| && Complete(s[d..], cs, ps)
    ensures i in Shift(ps, d) || exists k :: 0 <= k < |ps| && Shift(ps, d)[k] < i < Shift(ps, d)[k] + |cs[k]|
  {
    var ps2 := Shift(ps, d);
    MatchShift(s, d, i - d, m);
    if i - d in ps {
      var k :| 0 <= k < |ps| && ps[k] == i - d;
      assert ps2[k] == i;
    } else {
      var k :| 0 <= k < |ps| && ps[k] < i - d < ps[k] + |cs[k]|;
      assert ps2[k] < i < ps2[k] + |cs[k]|;
    }
  }

  lemma CompleteCons(s: string, n: nat, cs: seq<string>, ps: seq<nat>)
    requires 0 < n <= |s| && Complete(s[n..], cs, ps)
    ensures Complete(s, [s[..n]] + cs, [0] + Shift(ps, n))
  {
    var cs2, ps2 := [s[..n]] + cs, [0] + Shift(ps, n);
    forall i: nat, m: nat | MatchAt(s, i, m)
      ensures i in ps2 || exists k :: 0 <= k < |ps2| && ps2[k] < i < ps2[k] + |cs2[k]|
    {
      if i == 0 {
        assert ps2[0] == 0;
      } else if i < n {
        assert ps2[0] < i < ps2[0] + |cs2[0]|;
      } else {
        CompleteShift(s, n, cs, ps, i, m);
        if i in Shift(ps, n) {
          var k :| 0 <= k < |ps| && Shift(ps, n)[k] == i;
          assert ps2[k + 1] == i;
        } else {
          var k :| 0 <= k < |ps| && Shift(ps, n)[k] < i < Shift(ps, n)[k] + |cs[k]|;
          assert ps2[k + 1] < i < ps2[k + 1] + |cs2[k + 1]|;
        }
      }
    }
  }

  lemma CompleteSkip(s: string, cs: seq<string>, ps: seq<nat>)
    requires s != [] && CitationLength(s) == 0 && Complete(s[1..], cs, ps)
    ensures Complete(s, cs, Shift(ps, 1))
  {
    forall i: nat, m: nat | MatchAt(s, i, m)
      ensures i in Shift(ps, 1) || exists k :: 0 <= k < |ps| && Shift(ps, 1)[k] < i < Shift(ps, 1)[k] + |cs[k]|
    {
      if i == 0 {
        MatchAtStart(s, m);
      } else {
        CompleteShift(s, 1, cs, ps, i, m);
      }
    }
  }

  /** The scan step where a citation of length `n` starts: it is reported at 0, and the
      matches of the rest follow, shifted past it. */
  lemma FindAllCons(s: string, n: nat, cs: seq<string>, ps: seq<nat>)
    requires 0 < n <= |s| && WellFormedCitation(s[..n]) && FindAll(s[n..], cs, ps)
    ensures FindAll(s, [s[..n]] + cs, [0] + Shift(ps, n))
  {
    LocatedShift(s, n, cs, ps);
    LocatedCons(s, n, cs, Shift(ps, n));
    DisjointShift(cs, ps, n);
    DisjointCons(s[..n], cs, Shift(ps, n));
    CompleteCons(s, n, cs, ps);
  }

  /** The scan step where no citation starts: the matches of the rest, shifted by one. */
  lemma FindAllSkip(s: string, cs: seq<string>, ps: seq<nat>)
    requires s != [] && CitationLength(s) == 0 && FindAll(s[1..], cs, ps)
    ensures FindAll(s, cs, Shift(ps, 1))
  {
    LocatedShift(s, 1, cs, ps);
    DisjointShift(cs, ps, 1);
    CompleteSkip(s, cs, ps);
  }

  /** The extractor has `re.findall`'s semantics: it reports, left to right, the matches of
      the pattern that do not overlap an earlier one, and all of them. */
  lemma {:induction false} ExtractCitationsFindAll(s: string)
    ensures exists ps :: FindAll(s, ExtractCitations(s), ps)
    decreases |s|
  {
    if s == [] {
      assert ExtractCitations(s) == [];
      assert FindAll(s, ExtractCitations(s), []);
    } else {
      var n := CitationLength(s);
      if n > 0 {
        var cs := ExtractCitations(s[n..]);
        assert ExtractCitations(s) == [s[..n]] + cs;
        assert WellFormedCitation(ExtractCitations(s)[0]);
        ExtractCitationsFindAll(s[n..]);
        var ps :| FindAll(s[n..], cs, ps);
        FindAllCons(s, n, cs, ps);
        assert FindAll(s, ExtractCitations(s), [0] + Shift(ps, n));
      } else {
        var cs := ExtractCitations(s[1..]);
        ExtractCitationsFindAll(s[1..]);
        var ps :| FindAll(s[1..], cs, ps);
        FindAllSkip(s, cs, ps);
        assert FindAll(s, ExtractCitations(s), Shift(ps, 1));
      }
    }
  }

  // ---------------------------------------------------------------------------
  // Formatting retrieved chunks for the prompt

  /** `Chunk {i}: {citation}\n{text}` */
  function ChunkEntry(h: Retrieve.Hit, i: nat): string {
    "Chunk " + NatToString(i) + ": " + Retrieve.Citation(h) + "\n" + h.chunkText
  }

  function ChunkEntries(chunks: seq<Retrieve.Hit>): (es: seq<string>)
    ensures |es| == |chunks|
  {
    seq(|chunks|, k requires 0 <= k < |chunks| => ChunkEntry(chunks[k], k + 1))
  }

  /** `_format_chunks`: number the chunks from 1, each with its citation and text. */
  method FormatChunks(chunks: seq<Retrieve.Hit>) returns (s: string)
    ensures s == Join("\n\n---\n\n", ChunkEntries(chunks))
  {
    var formatted := [];
    var i := 1;
    while i <= |chunks|
      invariant 1 <= i <= |chunks| + 1
      invariant formatted == ChunkEntries(chunks[..i - 1])
    {
      var chunk := chunks[i - 1];
      var citation := Retrieve.Citation(chunk);
      assert ChunkEntries(chunks[..i]) == ChunkEntries(chunks[..i - 1]) + [ChunkEntry(chunk, i)];
      formatted := formatted + ["Chunk " + NatToString(i) + ": " + citation + "\n" + chunk.chunkText];
      i := i + 1;
    }
    assert chunks[..|chunks|] == chunks;
    s := Join("\n\n---\n\n", formatted);
  }

  /** The citation a chunk is given has the form the citation pattern matches, so long as
      its file name, page and id hold no ']'. */
  predicate CiteableChunk(h: Retrieve.Hit) {
    ']' !in Show(Get(h.metadata, "filename", Str("unknown"))) &&
    ']' !in Show(Get(h.metadata, "page", Int(0))) &&
    ']' !in h.chunkId
  }

  lemma CitationWellFormed(h: Retrieve.Hit)
    requires CiteableChunk(h)
    ensures WellFormedCitation(Retrieve.Citation(h))
  {
    var f := Show(Get(h.metadata, "filename", Str("unknown")));
    var p := Show(Get(h.metadata, "page", Int(0)));
    var body := f + " | p:" + p + " | chunk:" + h.chunkId;
    var c := Retrieve.Citation(h);
    assert c == "[doc:" + body + "]";
    assert c[5..|c| - 1] == body;
    NotInConcat(f, " | p:", ']');
    NotInConcat(f + " | p:", p, ']');
    NotInConcat(f + " | p:" + p, " | chunk:", ']');
    NotInConcat(f + " | p:" + p + " | chunk:", h.chunkId, ']');
  }

  /** Citations round-trip through the prompt: the citations found in a chunk's prompt entry
      are its own citation followed by whatever its text cites. */
  lemma ChunkEntryCitations(h: Retrieve.Hit, i: nat)
    requires CiteableChunk(h)
    ensures ExtractCitations(ChunkEntry(h, i)) == [Retrieve.Citation(h)] + ExtractCitations(h.chunkText)
  {
    CitationWellFormed(h);
    var c := Retrieve.Citation(h);
    var head := "Chunk " + NatToString(i) + ": ";
    assert '[' !in head by {
      assert forall x :: x in head ==> x in "Chunk " || x in NatToString(i) || x in ": ";
    }
    assert ChunkEntry(h, i) == head + (c + ("\n" + h.chunkText));
    NoBracketPrefix(head, c + ("\n" + h.chunkText));
    CitationThenRest(c, "\n" + h.chunkText);
    NoBracketPrefix("\n", h.chunkText);
  }

  // ---------------------------------------------------------------------------
  // Prompt assembly

  /** The templates' first words, where the two differ. */
  const StrictOpening: string := "You are a STEM solver. Use ONLY"
  const PreferOpening: string := "You are a STEM solver. Prefer"

  const StrictHead: string := StrictOpening + StrictRest
  const StrictRest: string :=
    " the following retrieved chunks (listed below). " +
    "For every step include a citation in the format " +
    "[doc:<filename> | p:<page> | chunk:<id>]. If any " +
    "required step cannot be supported by the chunks, " +
    "respond exactly: \"No supported solution found in " +
    "resources.\" Do NOT invent methods, facts, or " +
    "steps outside the chunks. Keep steps concise and " +
    "match the style of the retrieved content where " +
    "possible.\n\nRetrieved chunks:\n"

  const StrictTail: string :=
    "\n\nProvide a step-by-step solution using ONLY the " +
    "information from the retrieved chunks above. " +
    "Include citations for every step."

  const PreferHead: string := PreferOpening + PreferRest
  const PreferRest: string :=
    " using the following retrieved chunks. For steps " +
    "not supported by the chunks, you may use general " +
    "knowledge but mark those steps clearly with " +
    "(UNSUPPORTED) and include a confidence score for " +
    "each such step. Provide inline citations when you " +
    "use chunks.\n\nRetrieved chunks:\n"

  const PreferTail: string :=
    "\n\nProvide a step-by-step solution. Prefer the " +
    "retrieved chunks, but if needed, supplement with " +
    "general knowledge. Mark any unsupported steps " +
    "with (UNSUPPORTED) and rate confidence " +
    "(HIGH/MEDIUM/LOW)."

  /** `TEMPLATE.format(chunks=..., question=...)`; the templates hold no other fields. */
  function FillTemplate(head: string, tail: string, chunksText: string, question: string): string {
    head + chunksText + "\n\nQuestion:\n" + question + tail
  }

  /** The clause appended for a non-empty list of allowed methods. */
  function ConstraintClause(constraints: seq<string>): string {
    "\n\nMethod constraints: Use only " + Join(", ", constraints) + " methods."
  }

  /** The prompt `generate_solution` sends; an absent constraint list is the empty one. */
  function BuildPrompt(mode: string, chunksText: string, question: string, constraints: seq<string>): string {
    var prompt := if mode == "strict" then FillTemplate(StrictHead, StrictTail, chunksText, question)
                  else FillTemplate(PreferHead, PreferTail, chunksText, question);
    if constraints != [] then prompt + ConstraintClause(constraints) else prompt
  }

  /** The strict template is used exactly in strict mode: the prompt starts with the strict
      instructions iff the mode is "strict", and with the prefer instructions otherwise. */
  lemma StrictTemplateIff(mode: string, chunksText: string, question: string, constraints: seq<string>)
    ensures StrictHead <= BuildPrompt(mode, chunksText, question, constraints) <==> mode == "strict"
    ensures PreferHead <= BuildPrompt(mode, chunksText, question, constraints) <==> mode != "strict"
  {
    PromptHead(mode, chunksText, question, constraints);
    HeadDecidesMode(mode, BuildPrompt(mode, chunksText, question, constraints));
  }

  /** A text that starts with the mode's instructions starts with the other mode's only
      when the modes agree, since the two openings differ at their 24th character. */
  lemma HeadDecidesMode(mode: string, p: string)
    requires (if mode == "strict" then StrictHead else PreferHead) <= p
    ensures StrictHead <= p <==> mode == "strict"
    ensures PreferHead <= p <==> mode != "strict"
  {
    assert StrictOpening[23] == 'U' && PreferOpening[23] == 'P';
    if mode == "strict" {
      OpeningDecides(StrictOpening, StrictRest, PreferOpening, PreferRest, p, 23);
    } else {
      OpeningDecides(PreferOpening, PreferRest, StrictOpening, StrictRest, p, 23);
    }
  }

  lemma PromptHead(mode: string, chunksText: string, question: string, constraints: seq<string>)
    ensures (if mode == "strict" then StrictHead else PreferHead) <= BuildPrompt(mode, chunksText, question, constraints)
  {
    var head := if mode == "strict" then StrictHead else PreferHead;
    var tail := if mode == "strict" then StrictTail else PreferTail;
    var filled := FillTemplate(head, tail, chunksText, question);
    TemplatePrefix(head, tail, chunksText, question);
    PrefixExtends(head, filled, if constraints != [] then ConstraintClause(constraints) else "");
    assert filled + "" == filled;
  }

  /** A filled template starts with its head. */
  lemma TemplatePrefix(head: string, tail: string, chunksText: string, question: string)
    ensures head <= FillTemplate(head, tail, chunksText, question)
  {
    PrefixExtends(head, head, chunksText);
    PrefixExtends(head, head + chunksText, "\n\nQuestion:\n");
    PrefixExtends(head, head + chunksText + "\n\nQuestion:\n", question);
    PrefixExtends(head, head + chunksText + "\n\nQuestion:\n" + question, tail);
  }

  /** A prefix of a string is a prefix of any extension of it. */
  lemma PrefixExtends(a: string, b: string, c: string)
    requires a <= b
    ensures a <= b + c
  {
    assert (b + c)[..|a|] == b[..|a|];
  }

  /** Two texts whose openings differ at `i` cannot both start a string. */
  lemma OpeningDecides(o1: string, r1: string, o2: string, r2: string, s: string, i: nat)
    requires i < |o1| && i < |o2| && o1[i] != o2[i]
    requires o1 + r1 <= s
    ensures !(o2 + r2 <= s)
  {
    assert s[i] == (o1 + r1)[i] == o1[i];
    assert (o2 + r2)[i] == o2[i];
  }

  predicate EndsWith(s: string, suffix: string) {
    |suffix| <= |s| && s[|s| - |suffix|..] == suffix
  }

  /** The constraint clause is appended iff constraints are given. */
  lemma ConstraintClauseIff(mode: string, chunksText: string, question: string, constraints: seq<string>)
    ensures constraints != [] ==>
      EndsWith(BuildPrompt(mode, chunksText, question, constraints), ConstraintClause(constraints))
    ensures constraints == [] ==>
      forall cs :: !EndsWith(BuildPrompt(mode, chunksText, question, constraints), ConstraintClause(cs))
  {
    var head := if mode == "strict" then StrictHead else PreferHead;
    var tail := if mode == "strict" then StrictTail else PreferTail;
    var filled := FillTemplate(head, tail, chunksText, question);
    if constraints == [] {
      EndsWithConcat(head + chunksText + "\n\nQuestion:\n" + question, tail);
      assert tail[|tail| - 2] != 's';
      EndsWithChar(filled, tail);
      NoClauseEnding(filled);
    } else {
      EndsWithConcat(filled, ConstraintClause(constraints));
    }
  }

  lemma EndsWithConcat(a: string, b: string)
    ensures EndsWith(a + b, b)
  {
    assert (a + b)[|a|..] == b;
  }

  /** A text with a given ending has that ending's last but one character. */
  lemma EndsWithChar(p: string, tail: string)
    requires EndsWith(p, tail) && |tail| >= 2
    ensures p[|p| - 2] == tail[|tail| - 2]
  {
    assert p[|p| - |tail|..][|tail| - 2] == p[|p| - 2];
  }

  /** Every constraint clause ends in "s.", so a text whose last but one character is not
      an 's' ends in none of them. */
  lemma NoClauseEnding(p: string)
    requires |p| >= 2 && p[|p| - 2] != 's'
    ensures forall cs :: !EndsWith(p, ConstraintClause(cs))
  {
    forall cs ensures !EndsWith(p, ConstraintClause(cs)) {
      var c := ConstraintClause(cs);
      assert c[|c| - 2] == 's';
      if |c| <= |p| {
        assert p[|p| - |c|..][|c| - 2] == p[|p| - 2];
      }
    }
  }

  /** The record `generate_solution` returns. */
  datatype Generation = Generation(
    solution: string,
    mode: string,
    model: string,
    provider: string,
    chunksUsed: nat,
    promptLength: nat)

  /** A configured generator; `complete(provider, prompt)` is the provider's answer. */
  datatype LLMGenerator = LLMGenerator(model: string, provider: string, complete: (string, string) -> string)

  const Providers: set<string> := {"ollama", "openai", "gemini"}

  /** The constructor: the provider name is lower-cased and must be one of the three known. */
  function NewGenerator(model: string, provider: string, complete: (string, string) -> string): (r: Result<LLMGenerator>)
    ensures r.Ok? <==> Lower(provider) in Providers
    ensures r.Ok? ==> r.value.provider == Lower(provider) && r.value.model == model
    ensures r.Err? ==> r.error == "Unsupported provider: " + provider + ". Use 'openai', 'ollama', or 'gemini'"
  {
    var name := Lower(provider);
    if name == "ollama" || name == "openai" || name == "gemini" then Ok(LLMGenerator(model, name, complete))
    else Err("Unsupported provider: " + provider + ". Use 'openai', 'ollama', or 'gemini'")
  }

  /** The provider's answer, or the error text for a provider the generator does not know. */
  function Response(gen: LLMGenerator, prompt: string): string {
    if gen.provider in Providers then gen.complete(gen.provider, prompt)
    else "Error: Unsupported provider " + gen.provider
  }

  /** The prompt of `generate_solution`: the mode's template filled with the chunks and
      the question, then the constraint clause when constraints are given. */
  method FillPrompt(mode: string, chunksText: string, question: string, constraints: seq<string>)
    returns (prompt: string)
    ensures prompt == BuildPrompt(mode, chunksText, question, constraints)
  {
    if mode == "strict" {
      prompt := FillTemplate(StrictHead, StrictTail, chunksText, question);
    } else {
      prompt := FillTemplate(PreferHead, PreferTail, chunksText, question);
    }
    if constraints != [] {
      prompt := prompt + ConstraintClause(constraints);
    }
  }

  /** `generate_solution`: format the chunks, fill the template, append the constraints,
      and ask the provider. */
  method GenerateSolution(gen: LLMGenerator, question: string, chunks: seq<Retrieve.Hit>, mode: string,
                          constraints: seq<string>)
    returns (r: Generation)
    ensures var prompt := BuildPrompt(mode, Join("\n\n---\n\n", ChunkEntries(chunks)), question, constraints);
            r == Generation(Response(gen, prompt), mode, gen.model, gen.provider, |chunks|, |prompt|)
  {
    var chunksText := FormatChunks(chunks);
    var prompt := FillPrompt(mode, chunksText, question, constraints);
    var responseText;
    if gen.provider == "ollama" || gen.provider == "openai" || gen.provider == "gemini" {
      assert gen.provider in Providers;
      responseText := gen.complete(gen.provider, prompt);
    } else {
      assert gen.provider !in Providers;
      responseText := "Error: Unsupported provider " + gen.provider;
    }
    r := Generation(responseText, mode, gen.model, gen.provider, |chunks|, |prompt|);
  }

  /** A generator built by the constructor always reaches its provider. */
  lemma ConstructedGeneratorAsks(model: string, provider: string, complete: (string, string) -> string, prompt: string)
    requires NewGenerator(model, provider, complete).Ok?
    ensures var gen := NewGenerator(model, provider, complete).value;
            Response(gen, prompt) == complete(Lower(provider), prompt)
  {
  }

  // ---------------------------------------------------------------------------
  // Parsing a solution into steps

  datatype SolutionStep = SolutionStep(stepNum: int, text: string, citations: seq<string>, unsupported: bool)

  /** A line that opens a numbered step: it starts with a digit and holds ". " or ") ". */
  predicate IsMarker(line: string) {
    |line| > 0 && IsDigit(line[0]) && (Contains(line, ". ") || Contains(line, ") "))
  }

  /** The step emitted for a buffer of lines: its text, the citations in it, and whether
      it is flagged unsupported. */
  function MakeStep(stepNum: int, lines: seq<string>): SolutionStep {
    var text := Join("\n", lines);
    SolutionStep(stepNum, text, ExtractCitations(text), Contains(text, "(UNSUPPORTED)"))
  }

  /** The parser's state: the buffers emitted so far with their step numbers, the current
      buffer and the step counter. */
  datatype Parser = Parser(bufs: seq<seq<string>>, nums: seq<int>, current: seq<string>, stepNum: int)

  predicate WellFormedParser(p: Parser) {
    |p.bufs| == |p.nums|
  }

  /** Emit the current buffer, if it holds anything. */
  function Flush(p: Parser): (q: Parser)
    ensures WellFormedParser(p) ==> WellFormedParser(q)
  {
    if p.current != [] then Parser(p.bufs + [p.current], p.nums + [p.stepNum], [], p.stepNum) else p
  }

  /** One iteration of the line loop: a blank line ends the current step, a numbered
      line starts a new one, any other line continues the current one. */
  function Feed(p: Parser, rawLine: string): (q: Parser)
    ensures WellFormedParser(p) ==> WellFormedParser(q)
  {
    var line := Strip(rawLine);
    if line == [] then Flush(p)
    else if IsMarker(line) then Flush(p).(current := [line], stepNum := p.stepNum + 1)
    else p.(current := p.current + [line])
  }

  /** The parser's state after the first `k` lines. */
  function FeedUpTo(lines: seq<string>, k: nat): (p: Parser)
    requires k <= |lines|
    ensures WellFormedParser(p)
  {
    if k == 0 then Parser([], [], [], 0) else Feed(FeedUpTo(lines, k - 1), lines[k - 1])
  }

  /** The buffers `parse_solution_steps` ends with, the last one included. */
  function ParseBuffers(text: string): (p: Parser)
    ensures WellFormedParser(p)
  {
    var lines := SplitChar(text, '\n');
    Flush(FeedUpTo(lines, |lines|))
  }

  function StepsOf(bufs: seq<seq<string>>, nums: seq<int>): (steps: seq<SolutionStep>)
    requires |bufs| == |nums|
    ensures |steps| == |bufs|
  {
    seq(|bufs|, i requires 0 <= i < |bufs| => MakeStep(nums[i], bufs[i]))
  }

  lemma StepsOfSnoc(bufs: seq<seq<string>>, nums: seq<int>, b: seq<string>, n: int)
    requires |bufs| == |nums|
    ensures StepsOf(bufs + [b], nums + [n]) == StepsOf(bufs, nums) + [MakeStep(n, b)]
  {
    var l, r := StepsOf(bufs + [b], nums + [n]), StepsOf(bufs, nums) + [MakeStep(n, b)];
    forall i | 0 <= i < |l| ensures l[i] == r[i] {
      if i < |bufs| {
        assert (bufs + [b])[i] == bufs[i] && (nums + [n])[i] == nums[i];
      }
    }
  }

  /** The steps of the solution, in the order given. */
  function Steps(text: string): (steps: seq<SolutionStep>) {
    var p := ParseBuffers(text);
    StepsOf(p.bufs, p.nums)
  }

  /** What feeding one more line does to the emitted steps. */
  lemma FeedSteps(p: Parser, rawLine: string)
    requires WellFormedParser(p)
    ensures var q := Feed(p, rawLine);
            (Strip(rawLine) == [] || IsMarker(Strip(rawLine))) && p.current != [] ==>
              StepsOf(q.bufs, q.nums) == StepsOf(p.bufs, p.nums) + [MakeStep(p.stepNum, p.current)]
    ensures var q := Feed(p, rawLine);
            !((Strip(rawLine) == [] || IsMarker(Strip(rawLine))) && p.current != []) ==>
              q.bufs == p.bufs && q.nums == p.nums
  {
    if p.current != [] {
      StepsOfSnoc(p.bufs, p.nums, p.current, p.stepNum);
    }
  }

  /** One pass of the line loop of `parse_solution_steps`, on the state the parser `p`
      describes. */
  method ParseLine(ghost p: Parser, steps: seq<SolutionStep>, currentStep: seq<string>, stepNum: int,
                   rawLine: string)
    returns (steps': seq<SolutionStep>, currentStep': seq<string>, stepNum': int)
    requires WellFormedParser(p) && steps == StepsOf(p.bufs, p.nums)
    requires currentStep == p.current && stepNum == p.stepNum
    ensures var q := Feed(p, rawLine);
            steps' == StepsOf(q.bufs, q.nums) && currentStep' == q.current && stepNum' == q.stepNum
  {
    FeedSteps(p, rawLine);
    steps', currentStep', stepNum' := steps, currentStep, stepNum;
    var line := Strip(rawLine);
    if line == [] {
      if currentStep' != [] {
        steps' := steps' + [MakeStep(stepNum', currentStep')];
        currentStep' := [];
      }
    } else if IsMarker(line) {
      if currentStep' != [] {
        steps' := steps' + [MakeStep(stepNum', currentStep')];
      }
      stepNum' := stepNum' + 1;
      currentStep' := [line];
    } else {
      currentStep' := currentStep' + [line];
    }
  }

  /** `parse_solution_steps` */
  method ParseSolutionSteps(solutionText: string) returns (steps: seq<SolutionStep>)
    ensures steps == Steps(solutionText)
  {
    var lines := SplitChar(solutionText, '\n');
    steps := [];
    var currentStep := [];
    var stepNum := 0;
    ghost var st := Parser([], [], [], 0);
    var k := 0;
    while k < |lines|
      invariant 0 <= k <= |lines|
      invariant st == FeedUpTo(lines, k)
      invariant currentStep == st.current && stepNum == st.stepNum
      invariant steps == StepsOf(st.bufs, st.nums)
    {
      steps, currentStep, stepNum := ParseLine(st, steps, currentStep, stepNum, lines[k]);
      st := Feed(st, lines[k]);
      k := k + 1;
    }
    StepsOfFlush(st);
    if currentStep != [] {
      steps := steps + [MakeStep(stepNum, currentStep)];
    }
  }

  /** Emitting the last buffer appends its step, if it holds anything. */
  lemma StepsOfFlush(p: Parser)
    requires WellFormedParser(p)
    ensures StepsOf(Flush(p).bufs, Flush(p).nums) ==
            StepsOf(p.bufs, p.nums) + (if p.current != [] then [MakeStep(p.stepNum, p.current)] else [])
  {
    if p.current != [] {
      StepsOfSnoc(p.bufs, p.nums, p.current, p.stepNum);
    }
  }

  // The invariants of the line loop, one concern at a time.

  /** The stripped, non-blank lines, in order. */
  function ContentLines(lines: seq<string>): seq<string> {
    if lines == [] then []
    else
      var line := Strip(lines[|lines| - 1]);
      ContentLines(lines[..|lines| - 1]) + (if line == [] then [] else [line])
  }

  function Flatten(bufs: seq<seq<string>>): seq<string> {
    if bufs == [] then [] else Flatten(bufs[..|bufs| - 1]) + bufs[|bufs| - 1]
  }

  lemma FlattenSnoc(bufs: seq<seq<string>>, b: seq<string>)
    ensures Flatten(bufs + [b]) == Flatten(bufs) + b
  {
    assert (bufs + [b])[..|bufs|] == bufs;
  }

  /** The buffers, then the current one, hold the content lines read so far. */
  predicate ContentInv(p: Parser, lines: seq<string>) {
    Flatten(p.bufs) + p.current == ContentLines(lines)
  }

  lemma FeedContent(p: Parser, lines: seq<string>, rawLine: string)
    requires ContentInv(p, lines)
    ensures ContentInv(Feed(p, rawLine), lines + [rawLine])
  {
    assert (lines + [rawLine])[..|lines|] == lines;
    var line := Strip(rawLine);
    var q := Feed(p, rawLine);
    if p.current != [] {
      FlattenSnoc(p.bufs, p.current);
    }
    if line != [] {
      if IsMarker(line) {
        assert Flatten(q.bufs) + q.current == Flatten(p.bufs) + p.current + [line];
      } else {
        assert Flatten(q.bufs) + q.current == (Flatten(p.bufs) + p.current) + [line];
      }
    }
  }

  /** A buffer of non-empty lines where only the first may be numbered. */
  predicate GoodBuffer(b: seq<string>) {
    forall j :: 0 <= j < |b| ==> b[j] != [] && (j > 0 ==> !IsMarker(b[j]))
  }

  predicate ShapeInv(p: Parser) {
    |p.bufs| == |p.nums| &&
    (forall i :: 0 <= i < |p.bufs| ==> p.bufs[i] != [] && GoodBuffer(p.bufs[i])) &&
    GoodBuffer(p.current)
  }

  lemma FlushShape(p: Parser)
    requires ShapeInv(p)
    ensures ShapeInv(Flush(p)) && Flush(p).current == []
  {
    if p.current != [] {
      var q := Flush(p);
      assert forall i :: 0 <= i < |p.bufs| ==> q.bufs[i] == p.bufs[i];
      assert q.bufs[|p.bufs|] == p.current;
    }
  }

  lemma FeedShape(p: Parser, rawLine: string)
    requires ShapeInv(p)
    ensures ShapeInv(Feed(p, rawLine))
  {
    FlushShape(p);
    var line := Strip(rawLine);
    if line != [] && !IsMarker(line) {
      var c := p.current + [line];
      forall j | 0 <= j < |c| ensures c[j] != [] && (j > 0 ==> !IsMarker(c[j])) {
        if j < |p.current| {
          assert c[j] == p.current[j];
        }
      }
    }
  }

  /** 1 when a buffer opens with a numbered line, else 0: what the counter adds for it. */
  function Opens(b: seq<string>): int {
    if b != [] && IsMarker(b[0]) then 1 else 0
  }

  function LastNum(p: Parser): int {
    if p.nums == [] then 0 else p.nums[|p.nums| - 1]
  }

  /** Each buffer's number is the previous one's (0 before the first), plus one if it opens
      with a numbered line; the counter is the last number plus the current buffer's. */
  predicate NumberInv(p: Parser) {
    |p.bufs| == |p.nums| &&
    (|p.bufs| > 0 ==> p.nums[0] == Opens(p.bufs[0])) &&
    (forall i :: 0 < i < |p.bufs| ==> p.nums[i] == p.nums[i - 1] + Opens(p.bufs[i])) &&
    p.stepNum == LastNum(p) + Opens(p.current)
  }

  lemma FlushNumbers(p: Parser)
    requires NumberInv(p)
    ensures NumberInv(Flush(p)) && Flush(p).current == [] && LastNum(Flush(p)) == p.stepNum
  {
    if p.current != [] {
      var q := Flush(p);
      assert forall i :: 0 <= i < |p.bufs| ==> q.bufs[i] == p.bufs[i] && q.nums[i] == p.nums[i];
      assert q.bufs[|p.bufs|] == p.current && q.nums[|p.bufs|] == p.stepNum;
    }
  }

  lemma FeedNumbers(p: Parser, rawLine: string)
    requires NumberInv(p)
    ensures NumberInv(Feed(p, rawLine))
  {
    FlushNumbers(p);
    var line := Strip(rawLine);
    if line != [] && !IsMarker(line) {
      var c := p.current + [line];
      assert c[0] == if p.current == [] then line else p.current[0];
    }
  }

  /** No line has been read since the last content line, or a blank one has: the next
      content line opens a new buffer whatever its form. */
  predicate Gap(lines: seq<string>) {
    |lines| == 0 || Strip(lines[|lines| - 1]) == []
  }

  /** For each content line, in order, whether it opens a step: it is the first content
      line, a blank line precedes it, or it is numbered. */
  function Breaks(lines: seq<string>): (bs: seq<bool>)
    ensures |bs| == |ContentLines(lines)|
  {
    if lines == [] then []
    else
      var init := lines[..|lines| - 1];
      var line := Strip(lines[|lines| - 1]);
      Breaks(init) + (if line == [] then [] else [Gap(init) || IsMarker(line)])
  }

  /** The first-line marks of one buffer: true for its first line, false for the others. */
  function Head(b: seq<string>): (hs: seq<bool>)
    ensures |hs| == |b|
  {
    if b == [] then [] else [true] + seq(|b| - 1, _ => false)
  }

  /** For each line of the buffers, in order, whether it is the first line of its buffer. */
  function Starts(bufs: seq<seq<string>>): (ss: seq<bool>)
    ensures |ss| == |Flatten(bufs)|
  {
    if bufs == [] then [] else Starts(bufs[..|bufs| - 1]) + Head(bufs[|bufs| - 1])
  }

  lemma StartsSnoc(bufs: seq<seq<string>>, b: seq<string>)
    ensures Starts(bufs + [b]) == Starts(bufs) + Head(b)
  {
    assert (bufs + [b])[..|bufs|] == bufs;
  }

  /** The buffers, then the current one, start exactly at the content lines that open a
      step; the current buffer is empty exactly after a gap. */
  predicate BreakInv(p: Parser, lines: seq<string>) {
    Starts(p.bufs) + Head(p.current) == Breaks(lines) && (p.current == [] <==> Gap(lines))
  }

  lemma HeadSnoc(b: seq<string>, line: string)
    requires b != []
    ensures Head(b + [line]) == Head(b) + [false]
  {
  }

  lemma FeedBreaks(p: Parser, lines: seq<string>, rawLine: string)
    requires BreakInv(p, lines)
    ensures BreakInv(Feed(p, rawLine), lines + [rawLine])
  {
    assert (lines + [rawLine])[..|lines|] == lines;
    var line := Strip(rawLine);
    var q := Feed(p, rawLine);
    if p.current != [] {
      StartsSnoc(p.bufs, p.current);
    }
    if line != [] {
      if IsMarker(line) {
        assert Starts(q.bufs) + Head(q.current) == (Starts(p.bufs) + Head(p.current)) + [true];
      } else if p.current == [] {
        assert Head(q.current) == [true];
      } else {
        HeadSnoc(p.current, line);
        assert Starts(q.bufs) + Head(q.current) == (Starts(p.bufs) + Head(p.current)) + [false];
      }
    }
  }

  lemma {:induction false} FeedUpToInv(lines: seq<string>, k: nat)
    requires k <= |lines|
    ensures var p := FeedUpTo(lines, k);
      ContentInv(p, lines[..k]) && ShapeInv(p) && NumberInv(p) && BreakInv(p, lines[..k])
  {
    if k > 0 {
      assert lines[..k - 1] + [lines[k - 1]] == lines[..k];
      FeedUpToInv(lines, k - 1);
      FeedContent(FeedUpTo(lines, k - 1), lines[..k - 1], lines[k - 1]);
      FeedShape(FeedUpTo(lines, k - 1), lines[k - 1]);
      FeedNumbers(FeedUpTo(lines, k - 1), lines[k - 1]);
      FeedBreaks(FeedUpTo(lines, k - 1), lines[..k - 1], lines[k - 1]);
    }
  }

  /** Buffers that are non-empty and numbered only on their first line. */
  predicate Shaped(bufs: seq<seq<string>>) {
    forall i :: 0 <= i < |bufs| ==> bufs[i] != [] && GoodBuffer(bufs[i])
  }

  /** Step numbers that start from 0 and go up by one at each buffer opened by a numbered
      line. */
  predicate Numbered(bufs: seq<seq<string>>, nums: seq<int>) {
    |bufs| == |nums| &&
    (|bufs| > 0 ==> nums[0] == Opens(bufs[0])) &&
    (forall i :: 0 < i < |bufs| ==> nums[i] == nums[i - 1] + Opens(bufs[i]))
  }

  /** The buffers of a solution: every stripped non-blank line lands in exactly one, in
      order; none is empty; only a buffer's first line can be numbered; a buffer starts at
      a content line exactly when that line is the first, follows a blank line or is
      numbered, so any other line joins the buffer of the line before it; the numbers
      start from 0 and go up by one at each numbered line. */
  lemma ParseSpec(text: string)
    ensures var p := ParseBuffers(text);
            Flatten(p.bufs) == ContentLines(SplitChar(text, '\n')) && Shaped(p.bufs) &&
            Starts(p.bufs) == Breaks(SplitChar(text, '\n')) && Numbered(p.bufs, p.nums)
  {
    ParseContent(text);
    ParseShaped(text);
    ParseBreaks(text);
    ParseNumbered(text);
  }

  /** The content part of `ParseSpec` on its own. */
  lemma ParseContent(text: string)
    ensures Flatten(ParseBuffers(text).bufs) == ContentLines(SplitChar(text, '\n'))
  {
    var lines := SplitChar(text, '\n');
    FeedUpToInv(lines, |lines|);
    assert lines[..|lines|] == lines;
    var q := FeedUpTo(lines, |lines|);
    if q.current != [] {
      FlattenSnoc(q.bufs, q.current);
    }
  }

  /** The shape part of `ParseSpec` on its own. */
  lemma ParseShaped(text: string)
    ensures Shaped(ParseBuffers(text).bufs)
  {
    var lines := SplitChar(text, '\n');
    FeedUpToInv(lines, |lines|);
    FlushShape(FeedUpTo(lines, |lines|));
  }

  /** The buffer-boundary part of `ParseSpec` on its own. */
  lemma ParseBreaks(text: string)
    ensures Starts(ParseBuffers(text).bufs) == Breaks(SplitChar(text, '\n'))
  {
    var lines := SplitChar(text, '\n');
    FeedUpToInv(lines, |lines|);
    assert lines[..|lines|] == lines;
    var q := FeedUpTo(lines, |lines|);
    if q.current != [] {
      StartsSnoc(q.bufs, q.current);
    }
  }


  /** Every step has text, its citations are well formed and found in that text, its flag
      says whether the text holds "(UNSUPPORTED)", and step numbers never decrease. */
  predicate StepsWellFormed(steps: seq<SolutionStep>) {
    (forall i :: 0 <= i < |steps| ==> steps[i].text != []) &&
    (forall i :: 0 <= i < |steps| ==>
       forall c :: c in steps[i].citations ==> WellFormedCitation(c) && Contains(steps[i].text, c)) &&
    (forall i :: 0 <= i < |steps| ==> (steps[i].unsupported <==> Contains(steps[i].text, "(UNSUPPORTED)"))) &&
    (forall i :: 0 < i < |steps| ==> steps[i - 1].stepNum <= steps[i].stepNum)
  }

  lemma StepsOfWellFormed(bufs: seq<seq<string>>, nums: seq<int>)
    requires Shaped(bufs) && Numbered(bufs, nums)
    ensures StepsWellFormed(StepsOf(bufs, nums))
  {
    var steps := StepsOf(bufs, nums);
    forall i | 0 <= i < |steps|
      ensures steps[i].text != []
      ensures forall c :: c in steps[i].citations ==> WellFormedCitation(c) && Contains(steps[i].text, c)
    {
      assert bufs[i][0] != [];
      CitationsOccur(steps[i].text);
    }
  }

  /** The steps `parse_solution_steps` returns are well formed. */
  lemma StepsSpec(text: string)
    ensures StepsWellFormed(Steps(text))
  {
    ParseSpec(text);
    var p := ParseBuffers(text);
    StepsOfWellFormed(p.bufs, p.nums);
  }

  lemma {:induction false} NumberedFromOne(bufs: seq<seq<string>>, nums: seq<int>)
    requires Numbered(bufs, nums)
    requires forall i :: 0 <= i < |bufs| ==> Opens(bufs[i]) == 1
    ensures forall i :: 0 <= i < |nums| ==> nums[i] == i + 1
  {
    var i := 0;
    while i < |bufs|
      invariant 0 <= i <= |bufs|
      invariant forall j :: 0 <= j < i ==> nums[j] == j + 1
    {
      assert Opens(bufs[i]) == 1;
      if i > 0 {
        assert nums[i] == nums[i - 1] + Opens(bufs[i]);
      }
      i := i + 1;
    }
  }

  /** When every step of a solution opens with a numbered line, the steps are numbered
      1, 2, 3, ... in order. */
  lemma NumberedSolution(text: string)
    requires var p := ParseBuffers(text); forall i :: 0 <= i < |p.bufs| ==> Opens(p.bufs[i]) == 1
    ensures forall i :: 0 <= i < |Steps(text)| ==> Steps(text)[i].stepNum == i + 1
  {
    ParseNumbered(text);
    var p := ParseBuffers(text);
    NumberedFromOne(p.bufs, p.nums);
  }

  /** The numbering part of `ParseSpec` on its own. */
  lemma ParseNumbered(text: string)
    ensures var p := ParseBuffers(text); Numbered(p.bufs, p.nums)
  {
    var lines := SplitChar(text, '\n');
    FeedUpToInv(lines, |lines|);
    FlushNumbers(FeedUpTo(lines, |lines|));
  }

  /** An empty solution has no steps. */
  lemma EmptySolutionHasNoSteps()
    ensures Steps("") == []
  {
    assert SplitChar("", '\n') == [""];
    assert Strip("") == [];
    assert FeedUpTo([""], 1) == Parser([], [], [], 0);
  }
}
