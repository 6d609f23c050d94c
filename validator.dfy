/** Checking solution steps against the retrieved chunks: textual support (embedding
    similarity together with 3-gram overlap), symbolic support (an equivalence oracle with
    a string-normalisation fallback), and the overall verdict in strict and prefer mode.
    Embeddings, the math-expression regular expressions and sympy are parameters. */
module Validator {
  import opened Text
  import Retrieve
  import Generator

  datatype Confidence = High | Medium | Low

  /** `sim_threshold` and `min_ngram_overlap`. */
  datatype Config = Config(simThreshold: real, minNgramOverlap: int)

  const DefaultConfig: Config := Config(0.78, 6)

  /** What the validator takes from outside:
      `similarity(a, b)`: cosine similarity of the embeddings of two texts;
      `rawMath(text)`: the regular-expression matches for math in a text, before stripping;
      `symbolic(a, b)`: whether sympy finds `a - b` simplifies to 0, or None when parsing
      or simplification raises. */
  datatype Oracles = Oracles(
    similarity: (string, string) -> real,
    rawMath: string -> seq<string>,
    symbolic: (string, string) -> Option<bool>)

  // ---------------------------------------------------------------------------
  // Textual support

  /** `np.argmax`: the first index holding a largest value. */
  function ArgMax(xs: seq<real>): (i: nat)
    requires |xs| > 0
    ensures i < |xs|
    ensures forall j :: 0 <= j < |xs| ==> xs[j] <= xs[i]
    ensures forall j :: 0 <= j < i ==> xs[j] < xs[i]
    decreases |xs|
  {
    if |xs| == 1 then 0
    else
      var k := ArgMax(xs[..|xs| - 1]);
      assert forall j :: 0 <= j < |xs| - 1 ==> xs[..|xs| - 1][j] == xs[j];
      if xs[|xs| - 1] > xs[k] then |xs| - 1 else k
  }

  /** The similarity of the step to each chunk, in chunk order. */
  function Similarities(o: Oracles, stepText: string, chunks: seq<Retrieve.Hit>): (sims: seq<real>)
    ensures |sims| == |chunks|
  {
    seq(|chunks|, i requires 0 <= i < |chunks| => o.similarity(stepText, chunks[i].chunkText))
  }

  /** HIGH from 0.85, MEDIUM from the threshold, LOW below. */
  function Bucket(similarity: real, threshold: real): Confidence {
    if similarity >= 0.85 then High else if similarity >= threshold then Medium else Low
  }

  function Level(c: Confidence): nat {
    match c
    case Low => 0
    case Medium => 1
    case High => 2
  }

  /** Confidence never falls as similarity grows, and a similarity that meets the threshold
      is never LOW. */
  lemma BucketMonotone(s1: real, s2: real, threshold: real)
    requires s1 <= s2
    ensures Level(Bucket(s1, threshold)) <= Level(Bucket(s2, threshold))
    ensures s1 >= threshold ==> Bucket(s1, threshold) != Low
  {
  }

  datatype TextSupport = TextSupport(
    supported: bool,
    similarity: real,
    overlap: int,
    confidence: Confidence,
    chunkId: Option<string>)

  /** The chunk whose similarity is the first maximum. */
  function BestIndex(o: Oracles, stepText: string, chunks: seq<Retrieve.Hit>): nat
    requires chunks != []
  {
    ArgMax(Similarities(o, stepText, chunks))
  }

  /** `_check_textual_support` */
  function TextualSupport(cfg: Config, o: Oracles, stepText: string, chunks: seq<Retrieve.Hit>): (t: TextSupport)
    ensures chunks == [] ==> t == TextSupport(false, 0.0, 0, Low, None)
  {
    if chunks == [] then TextSupport(false, 0.0, 0, Low, None)
    else
      var sims := Similarities(o, stepText, chunks);
      var best := ArgMax(sims);
      var overlap := NgramOverlap(stepText, chunks[best].chunkText, 3);
      var supported := sims[best] >= cfg.simThreshold && overlap >= cfg.minNgramOverlap;
      TextSupport(supported, sims[best], overlap, Bucket(sims[best], cfg.simThreshold), Some(chunks[best].chunkId))
  }

  /** Textual support is judged against the first most similar chunk: it holds iff that
      similarity meets the threshold and the 3-gram overlap with that chunk meets the minimum;
      every other chunk is at most as similar, and every earlier one strictly less. */
  lemma TextualSupportSpec(cfg: Config, o: Oracles, stepText: string, chunks: seq<Retrieve.Hit>)
    requires chunks != []
    ensures var t := TextualSupport(cfg, o, stepText, chunks);
            var i := BestIndex(o, stepText, chunks);
            i < |chunks| &&
            t.similarity == o.similarity(stepText, chunks[i].chunkText) &&
            t.chunkId == Some(chunks[i].chunkId) &&
            (forall j :: 0 <= j < |chunks| ==> o.similarity(stepText, chunks[j].chunkText) <= t.similarity) &&
            (forall j :: 0 <= j < i ==> o.similarity(stepText, chunks[j].chunkText) < t.similarity) &&
            (t.supported <==> t.similarity >= cfg.simThreshold &&
                              NgramOverlap(stepText, chunks[i].chunkText, 3) >= cfg.minNgramOverlap) &&
            t.confidence == Bucket(t.similarity, cfg.simThreshold)
  {
    var sims := Similarities(o, stepText, chunks);
    assert forall j :: 0 <= j < |chunks| ==> sims[j] == o.similarity(stepText, chunks[j].chunkText);
  }

  // ---------------------------------------------------------------------------
  // n-gram overlap

  function NGram(tokens: seq<string>, i: nat, n: int): string {
    Join(" ", PySlice(tokens, i, i + n))
  }

  /** The n-grams at positions below `bound`. */
  function NGramsBelow(tokens: seq<string>, n: int, bound: nat): set<string> {
    set i: nat | i < bound :: NGram(tokens, i, n)
  }

  /** The set of space-joined n-grams at positions `0 .. len(tokens) - n`. */
  function NGrams(tokens: seq<string>, n: int): set<string> {
    NGramsBelow(tokens, n, Max(0, |tokens| - n + 1))
  }

  lemma NGramsBelowSnoc(tokens: seq<string>, n: int, i: nat)
    ensures NGramsBelow(tokens, n, i + 1) == NGramsBelow(tokens, n, i) + {NGram(tokens, i, n)}
  {
    var a, b := NGramsBelow(tokens, n, i + 1), NGramsBelow(tokens, n, i) + {NGram(tokens, i, n)};
    forall x | x in a ensures x in b {
      var j: nat :| j < i + 1 && x == NGram(tokens, j, n);
      if j < i {
        assert x in NGramsBelow(tokens, n, i);
      }
    }
    forall x | x in b ensures x in a {
      if x in NGramsBelow(tokens, n, i) {
        var j: nat :| j < i && x == NGram(tokens, j, n);
        assert j < i + 1;
      } else {
        assert x == NGram(tokens, i, n);
      }
    }
  }

  function Tokens(text: string): seq<string> {
    Words(Lower(text))
  }

  /** The number of distinct n-grams the two lower-cased texts share. */
  function NgramOverlap(text1: string, text2: string, n: int): nat {
    |NGrams(Tokens(text1), n) * NGrams(Tokens(text2), n)|
  }

  method CollectNGrams(tokens: seq<string>, n: int) returns (grams: set<string>)
    ensures grams == NGrams(tokens, n)
  {
    grams := {};
    var i: nat := 0;
    while i < |tokens| - n + 1
      invariant i <= Max(0, |tokens| - n + 1)
      invariant grams == NGramsBelow(tokens, n, i)
      decreases |tokens| - n + 1 - i
    {
      var ngram := Join(" ", PySlice(tokens, i, i + n));
      NGramsBelowSnoc(tokens, n, i);
      grams := grams + {ngram};
      i := i + 1;
    }
  }

  /** `_compute_ngram_overlap` */
  method ComputeNgramOverlap(text1: string, text2: string, n: int) returns (overlap: nat)
    ensures overlap == NgramOverlap(text1, text2, n)
  {
    var tokens1 := Words(Lower(text1));
    var tokens2 := Words(Lower(text2));
    var ngrams1 := CollectNGrams(tokens1, n);
    var ngrams2 := CollectNGrams(tokens2, n);
    overlap := |ngrams1 * ngrams2|;
  }

  /** The overlap does not depend on the order of the texts or on their case. */
  lemma NgramOverlapSymmetric(text1: string, text2: string, n: int)
    ensures NgramOverlap(text1, text2, n) == NgramOverlap(text2, text1, n)
    ensures NgramOverlap(Lower(text1), text2, n) == NgramOverlap(text1, text2, n)
  {
    assert NGrams(Tokens(text1), n) * NGrams(Tokens(text2), n) == NGrams(Tokens(text2), n) * NGrams(Tokens(text1), n);
    LowerIdempotent(text1);
  }

  /** A text with fewer than n tokens shares no n-gram. */
  lemma ShortTextNoOverlap(text1: string, text2: string, n: int)
    requires n >= 1 && |Tokens(text1)| < n
    ensures NgramOverlap(text1, text2, n) == 0
  {
    assert NGrams(Tokens(text1), n) == {};
  }

  /** The overlap is at most the number of distinct n-grams on either side. */
  lemma NgramOverlapBounded(text1: string, text2: string, n: int)
    ensures NgramOverlap(text1, text2, n) <= |NGrams(Tokens(text1), n)|
    ensures NgramOverlap(text1, text2, n) <= |NGrams(Tokens(text2), n)|
  {
    var a, b := NGrams(Tokens(text1), n), NGrams(Tokens(text2), n);
    SubsetCard(a * b, a);
    SubsetCard(a * b, b);
  }

  lemma {:induction false} SubsetCard<T>(small: set<T>, big: set<T>)
    requires small <= big
    ensures |small| <= |big|
    decreases |big|
  {
    if small != {} {
      var x :| x in small;
      SubsetCard(small - {x}, big - {x});
    }
  }

  // ---------------------------------------------------------------------------
  // Expression normalisation and symbolic equivalence

  /** `re.sub(r'\s+', '', s)` */
  function RemoveSpace(s: string): (r: string)
    ensures forall k :: 0 <= k < |r| ==> !IsSpace(r[k])
  {
    if s == [] then [] else (if IsSpace(s[0]) then [] else [s[0]]) + RemoveSpace(s[1..])
  }

  /** `s.replace(x, '')` */
  function RemoveChar(s: string, x: char): (r: string)
    ensures forall k :: 0 <= k < |r| ==> r[k] != x
  {
    if s == [] then [] else (if s[0] == x then [] else [s[0]]) + RemoveChar(s[1..], x)
  }

  /** `_normalize_expression`: drop whitespace, lower-case, drop `*` and `×`. */
  function NormalizeExpression(expr: string): string {
    RemoveChar(RemoveChar(Lower(RemoveSpace(expr)), '*'), '×')
  }

  /** The normal form holds no whitespace, no upper-case letter, no `*` and no `×`. */
  predicate Normal(s: string) {
    forall k :: 0 <= k < |s| ==> !IsSpace(s[k]) && !('A' <= s[k] <= 'Z') && s[k] != '*' && s[k] != '×'
  }

  lemma {:induction false} RemoveCharKeeps(s: string, x: char)
    ensures forall k :: 0 <= k < |RemoveChar(s, x)| ==> RemoveChar(s, x)[k] in s
  {
    if s != [] {
      RemoveCharKeeps(s[1..], x);
      var r := RemoveChar(s[1..], x);
      assert forall k :: 0 <= k < |r| ==> r[k] in s;
    }
  }

  lemma {:induction false} RemoveSpaceKeeps(s: string)
    ensures forall k :: 0 <= k < |RemoveSpace(s)| ==> RemoveSpace(s)[k] in s
  {
    if s != [] {
      RemoveSpaceKeeps(s[1..]);
      var r := RemoveSpace(s[1..]);
      assert forall k :: 0 <= k < |r| ==> r[k] in s;
    }
  }

  lemma NormalizeIsNormal(expr: string)
    ensures Normal(NormalizeExpression(expr))
  {
    var a := RemoveSpace(expr);
    var b := Lower(a);
    var c := RemoveChar(b, '*');
    var d := RemoveChar(c, '×');
    assert forall k :: 0 <= k < |b| ==> !IsSpace(b[k]) by {
      forall k | 0 <= k < |b| ensures !IsSpace(b[k]) {
        assert b[k] == LowerChar(a[k]);
      }
    }
    RemoveCharKeeps(b, '*');
    RemoveCharKeeps(c, '×');
    forall k | 0 <= k < |d| ensures !IsSpace(d[k]) && !('A' <= d[k] <= 'Z') && d[k] != '*' {
      assert d[k] in c;
      var j :| 0 <= j < |c| && c[j] == d[k];
      assert c[j] in b;
      var i :| 0 <= i < |b| && b[i] == c[j];
      assert b[i] == LowerChar(a[i]);
    }
  }

  lemma {:induction false} RemoveSpaceFixed(s: string)
    requires forall k :: 0 <= k < |s| ==> !IsSpace(s[k])
    ensures RemoveSpace(s) == s
  {
    if s != [] {
      RemoveSpaceFixed(s[1..]);
    }
  }

  lemma {:induction false} RemoveCharFixed(s: string, x: char)
    requires forall k :: 0 <= k < |s| ==> s[k] != x
    ensures RemoveChar(s, x) == s
  {
    if s != [] {
      RemoveCharFixed(s[1..], x);
    }
  }

  /** A normal string normalises to itself. */
  lemma NormalFixed(s: string)
    requires Normal(s)
    ensures NormalizeExpression(s) == s
  {
    RemoveSpaceFixed(s);
    assert Lower(s) == s;
    RemoveCharFixed(s, '*');
    RemoveCharFixed(s, '×');
  }

  /** Normalising twice is normalising once. */
  lemma NormalizeIdempotent(expr: string)
    ensures NormalizeExpression(NormalizeExpression(expr)) == NormalizeExpression(expr)
  {
    NormalizeIsNormal(expr);
    NormalFixed(NormalizeExpression(expr));
  }

  /** Normalisation works piece by piece, so spacing and `*` between pieces are ignored. */
  lemma {:induction false} NormalizeConcat(a: string, b: string)
    ensures NormalizeExpression(a + b) == NormalizeExpression(a) + NormalizeExpression(b)
  {
    RemoveSpaceConcat(a, b);
    assert Lower(RemoveSpace(a) + RemoveSpace(b)) == Lower(RemoveSpace(a)) + Lower(RemoveSpace(b));
    RemoveCharConcat(Lower(RemoveSpace(a)), Lower(RemoveSpace(b)), '*');
    RemoveCharConcat(RemoveChar(Lower(RemoveSpace(a)), '*'), RemoveChar(Lower(RemoveSpace(b)), '*'), '×');
  }

  lemma {:induction false} RemoveSpaceConcat(a: string, b: string)
    ensures RemoveSpace(a + b) == RemoveSpace(a) + RemoveSpace(b)
  {
    if a == [] {
      assert a + b == b;
    } else {
      assert (a + b)[0] == a[0] && (a + b)[1..] == a[1..] + b;
      RemoveSpaceConcat(a[1..], b);
    }
  }

  lemma {:induction false} RemoveCharConcat(a: string, b: string, x: char)
    ensures RemoveChar(a + b, x) == RemoveChar(a, x) + RemoveChar(b, x)
  {
    if a == [] {
      assert a + b == b;
    } else {
      assert (a + b)[0] == a[0] && (a + b)[1..] == a[1..] + b;
      RemoveCharConcat(a[1..], b, x);
    }
  }

  /** `_are_symbolically_equivalent`: sympy's answer, or equality of the normal forms when
      sympy raises. */
  predicate SymbolicallyEquivalent(o: Oracles, expr1: string, expr2: string) {
    match o.symbolic(expr1, expr2)
    case Some(equal) => equal
    case None => NormalizeExpression(expr1) == NormalizeExpression(expr2)
  }

  /** Where sympy raises, the fallback is an equivalence relation that ignores spacing,
      case and multiplication signs. */
  lemma FallbackEquivalence(o: Oracles, a: string, b: string, c: string)
    requires o.symbolic(a, a).None? && o.symbolic(a, b).None? && o.symbolic(b, a).None?
    requires o.symbolic(b, c).None? && o.symbolic(a, c).None?
    ensures SymbolicallyEquivalent(o, a, a)
    ensures SymbolicallyEquivalent(o, a, b) ==> SymbolicallyEquivalent(o, b, a)
    ensures SymbolicallyEquivalent(o, a, b) && SymbolicallyEquivalent(o, b, c) ==> SymbolicallyEquivalent(o, a, c)
  {
  }

  /** `[expr.strip() for expr in expressions if expr.strip()]` */
  function CleanExpressions(raw: seq<string>): (es: seq<string>)
    ensures |es| <= |raw|
  {
    if raw == [] then []
    else
      var e := Strip(raw[0]);
      (if e == [] then [] else [e]) + CleanExpressions(raw[1..])
  }

  /** A stripped, non-empty expression. */
  predicate Clean(e: string) {
    e != [] && Strip(e) == e
  }

  /** Every cleaned expression is stripped and non-empty. */
  lemma {:induction false} CleanExpressionsSpec(raw: seq<string>)
    ensures forall k :: 0 <= k < |CleanExpressions(raw)| ==> Clean(CleanExpressions(raw)[k])
  {
    if raw != [] {
      CleanExpressionsSpec(raw[1..]);
      var e := Strip(raw[0]);
      var rest := CleanExpressions(raw[1..]);
      var es := CleanExpressions(raw);
      if e != [] {
        StripIdempotent(raw[0]);
        assert Clean(e);
        assert es == [e] + rest;
        forall k | 0 <= k < |es| ensures Clean(es[k]) {
          if k > 0 {
            assert es[k] == rest[k - 1];
          }
        }
      } else {
        assert es == rest;
      }
    }
  }

  function MathExpressions(o: Oracles, text: string): seq<string> {
    CleanExpressions(o.rawMath(text))
  }

  /** The first chunk expression from `b` on that the step expression is equivalent to. */
  function FirstEquivalentFrom(o: Oracles, stepExpr: string, chunkExprs: seq<string>, b: nat): (r: Option<nat>)
    requires b <= |chunkExprs|
    ensures r.Some? ==> b <= r.value < |chunkExprs| && SymbolicallyEquivalent(o, stepExpr, chunkExprs[r.value])
    ensures r.Some? ==> forall j :: b <= j < r.value ==> !SymbolicallyEquivalent(o, stepExpr, chunkExprs[j])
    ensures r.None? ==> forall j :: b <= j < |chunkExprs| ==> !SymbolicallyEquivalent(o, stepExpr, chunkExprs[j])
    decreases |chunkExprs| - b
  {
    if b == |chunkExprs| then None
    else if SymbolicallyEquivalent(o, stepExpr, chunkExprs[b]) then Some(b)
    else FirstEquivalentFrom(o, stepExpr, chunkExprs, b + 1)
  }

  /** The first (step expression, chunk expression) pair, step expressions outermost,
      from step expression `a` on. */
  function FirstPairFrom(o: Oracles, stepExprs: seq<string>, chunkExprs: seq<string>, a: nat): (r: Option<(nat, nat)>)
    requires a <= |stepExprs|
    ensures r.Some? ==> a <= r.value.0 < |stepExprs| && r.value.1 < |chunkExprs| &&
                        SymbolicallyEquivalent(o, stepExprs[r.value.0], chunkExprs[r.value.1])
    ensures r.Some? ==> forall i, j :: a <= i < r.value.0 && 0 <= j < |chunkExprs| ==>
                          !SymbolicallyEquivalent(o, stepExprs[i], chunkExprs[j])
    ensures r.Some? ==> forall j :: 0 <= j < r.value.1 ==> !SymbolicallyEquivalent(o, stepExprs[r.value.0], chunkExprs[j])
    ensures r.None? ==> forall i, j :: a <= i < |stepExprs| && 0 <= j < |chunkExprs| ==>
                          !SymbolicallyEquivalent(o, stepExprs[i], chunkExprs[j])
    decreases |stepExprs| - a
  {
    if a == |stepExprs| then None
    else match FirstEquivalentFrom(o, stepExprs[a], chunkExprs, 0)
      case Some(j) => Some((a, j))
      case None => FirstPairFrom(o, stepExprs, chunkExprs, a + 1)
  }

  /** The symbolic match `_check_symbolic_support` reports. */
  datatype SymbolicMatch = SymbolicMatch(chunkIndex: nat, stepExpr: string, chunkExpr: string)

  /** No expression of chunk `i` is equivalent to any expression of the step. */
  predicate NoPairIn(o: Oracles, stepExprs: seq<string>, chunks: seq<Retrieve.Hit>, i: nat)
    requires i < |chunks|
  {
    NoPair(o, stepExprs, MathExpressions(o, chunks[i].chunkText))
  }

  predicate NoPair(o: Oracles, stepExprs: seq<string>, chunkExprs: seq<string>) {
    forall a, b :: 0 <= a < |stepExprs| && 0 <= b < |chunkExprs| ==> !SymbolicallyEquivalent(o, stepExprs[a], chunkExprs[b])
  }

  /** The search over chunks from chunk `i` on. */
  function SearchFrom(o: Oracles, stepExprs: seq<string>, chunks: seq<Retrieve.Hit>, i: nat): (r: Option<SymbolicMatch>)
    requires i <= |chunks|
    ensures r.Some? ==> i <= r.value.chunkIndex < |chunks| &&
                        r.value.stepExpr in stepExprs &&
                        r.value.chunkExpr in MathExpressions(o, chunks[r.value.chunkIndex].chunkText) &&
                        SymbolicallyEquivalent(o, r.value.stepExpr, r.value.chunkExpr)
    ensures r.Some? ==> forall k :: i <= k < r.value.chunkIndex ==> NoPairIn(o, stepExprs, chunks, k)
    ensures r.None? ==> forall k :: i <= k < |chunks| ==> NoPairIn(o, stepExprs, chunks, k)
    decreases |chunks| - i
  {
    if i == |chunks| then None
    else
      var chunkExprs := MathExpressions(o, chunks[i].chunkText);
      var first := FirstPairFrom(o, stepExprs, chunkExprs, 0);
      if first.Some? then
        assert stepExprs[first.value.0] in stepExprs && chunkExprs[first.value.1] in chunkExprs;
        Some(SymbolicMatch(i, stepExprs[first.value.0], chunkExprs[first.value.1]))
      else
        assert NoPair(o, stepExprs, chunkExprs);
        assert NoPairIn(o, stepExprs, chunks, i);
        SearchFrom(o, stepExprs, chunks, i + 1)
  }

  /** `_check_symbolic_support`: None when the step has no math or no match is found. */
  function SymbolicSupport(o: Oracles, stepText: string, chunks: seq<Retrieve.Hit>): (r: Option<SymbolicMatch>)
    ensures MathExpressions(o, stepText) == [] ==> r.None?
    ensures chunks == [] ==> r.None?
    ensures r.Some? ==> r.value.chunkIndex < |chunks| &&
                        r.value.stepExpr in MathExpressions(o, stepText) &&
                        r.value.chunkExpr in MathExpressions(o, chunks[r.value.chunkIndex].chunkText) &&
                        SymbolicallyEquivalent(o, r.value.stepExpr, r.value.chunkExpr) &&
                        forall k :: 0 <= k < r.value.chunkIndex ==> NoPairIn(o, MathExpressions(o, stepText), chunks, k)
    ensures r.None? && MathExpressions(o, stepText) != [] ==>
              forall k :: 0 <= k < |chunks| ==> NoPairIn(o, MathExpressions(o, stepText), chunks, k)
  {
    var stepExprs := MathExpressions(o, stepText);
    if stepExprs == [] then None else SearchFrom(o, stepExprs, chunks, 0)
  }

  /** `chunk_{i}` */
  function ChunkLabel(i: nat): string {
    "chunk_" + NatToString(i)
  }

  // ---------------------------------------------------------------------------
  // One step

  datatype SupportType = Textual | Symbolic | NoSupport

  datatype StepVerdict = StepVerdict(
    supported: bool,
    supportType: SupportType,
    confidence: Confidence,
    bestSimilarity: real,
    bestChunkId: Option<string>)

  /** `_validate_step`: textual support first, then symbolic. The verdict is supported
      exactly when its confidence is above LOW. */
  function ValidateStep(cfg: Config, o: Oracles, stepText: string, chunks: seq<Retrieve.Hit>): (v: StepVerdict)
    ensures v.supported <==> v.confidence != Low
    ensures chunks == [] ==> v == StepVerdict(false, NoSupport, Low, 0.0, None)
  {
    var t := TextualSupport(cfg, o, stepText, chunks);
    var s := SymbolicSupport(o, stepText, chunks);
    if t.supported then StepVerdict(true, Textual, t.confidence, t.similarity, t.chunkId)
    else if s.Some? then StepVerdict(true, Symbolic, High, 0.0, Some(ChunkLabel(s.value.chunkIndex)))
    else StepVerdict(false, NoSupport, Low, t.similarity, t.chunkId)
  }

  /** Textual support takes precedence over symbolic support, and a step with neither is
      reported with its best textual similarity. */
  lemma StepPrecedence(cfg: Config, o: Oracles, stepText: string, chunks: seq<Retrieve.Hit>)
    ensures var v := ValidateStep(cfg, o, stepText, chunks);
            var t := TextualSupport(cfg, o, stepText, chunks);
            var s := SymbolicSupport(o, stepText, chunks);
            (v.supportType == Textual <==> t.supported) &&
            (v.supportType == Symbolic <==> !t.supported && s.Some?) &&
            (v.supported <==> t.supported || s.Some?) &&
            (!v.supported ==> v.bestSimilarity == t.similarity && v.bestChunkId == t.chunkId) &&
            (v.supportType == Symbolic ==> v.bestChunkId == Some(ChunkLabel(s.value.chunkIndex)))
  {
  }

  // ---------------------------------------------------------------------------
  // The whole solution

  datatype StepValidation = StepValidation(
    stepNum: int,
    stepText: string,
    supported: bool,
    supportType: SupportType,
    confidence: Confidence,
    bestMatchSimilarity: real,
    bestMatchChunk: Option<string>,
    citationsFound: seq<string>,
    unsupportedFlag: bool)

  /** The step check with the settings, the oracles and the chunks fixed. */
  function Checker(cfg: Config, o: Oracles, chunks: seq<Retrieve.Hit>): string -> StepVerdict {
    text => ValidateStep(cfg, o, text, chunks)
  }

  /** The record kept for one validated step. */
  function Validation(check: string -> StepVerdict, step: Generator.SolutionStep): StepValidation {
    var v := check(step.text);
    StepValidation(step.stepNum, step.text, v.supported, v.supportType, v.confidence, v.bestSimilarity,
                   v.bestChunkId, step.citations, step.unsupported)
  }

  /** The steps whose text is not blank, in order. */
  function NonBlankSteps(steps: seq<Generator.SolutionStep>): (r: seq<Generator.SolutionStep>)
    ensures |r| <= |steps|
    ensures forall k :: 0 <= k < |r| ==> !IsBlank(r[k].text)
  {
    if steps == [] then []
    else
      var last := steps[|steps| - 1];
      NonBlankSteps(steps[..|steps| - 1]) + (if IsBlank(last.text) then [] else [last])
  }

  /** The records of the non-blank steps, in order. */
  function Validations(check: string -> StepVerdict, steps: seq<Generator.SolutionStep>): (vs: seq<StepValidation>) {
    if steps == [] then []
    else
      var last := steps[|steps| - 1];
      Validations(check, steps[..|steps| - 1]) + (if IsBlank(last.text) then [] else [Validation(check, last)])
  }

  lemma ValidationsSnoc(check: string -> StepVerdict, steps: seq<Generator.SolutionStep>, step: Generator.SolutionStep)
    ensures Validations(check, steps + [step]) ==
            Validations(check, steps) + (if IsBlank(step.text) then [] else [Validation(check, step)])
  {
    assert (steps + [step])[..|steps|] == steps;
  }

  function CountSupported(vs: seq<StepValidation>): (n: nat) {
    if vs == [] then 0 else CountSupported(vs[..|vs| - 1]) + (if vs[|vs| - 1].supported then 1 else 0)
  }

  predicate AllSupported(vs: seq<StepValidation>) {
    forall k :: 0 <= k < |vs| ==> vs[k].supported
  }

  /** The supported count never exceeds the total, and equals it iff every step is supported. */
  lemma {:induction false} CountSupportedSpec(vs: seq<StepValidation>)
    ensures CountSupported(vs) <= |vs|
    ensures CountSupported(vs) == |vs| <==> AllSupported(vs)
  {
    if vs != [] {
      var init := vs[..|vs| - 1];
      CountSupportedSpec(init);
      assert forall k :: 0 <= k < |init| ==> init[k] == vs[k];
      if !AllSupported(init) {
        var k :| 0 <= k < |init| && !init[k].supported;
        assert !vs[k].supported;
      }
    }
  }

  lemma AllSupportedSnoc(vs: seq<StepValidation>, v: StepValidation)
    ensures AllSupported(vs + [v]) <==> AllSupported(vs) && v.supported
  {
    assert (vs + [v])[|vs|] == v;
    assert forall k :: 0 <= k < |vs| ==> (vs + [v])[k] == vs[k];
  }

  datatype Status = Passed | Failed | Partial

  datatype ValidationResult = ValidationResult(
    status: Status,
    message: string,
    mode: string,
    allSupported: bool,
    stepValidations: seq<StepValidation>,
    totalSteps: nat,
    supportedSteps: nat)

  const NoSupportedSolution: string := "No supported solution found in resources."
  const AllValidated: string := "All steps validated against resources."

  function CountMessage(supported: nat, total: nat): string {
    NatToString(supported) + "/" + NatToString(total) + " steps supported by resources."
  }

  /** The status and message for the validated steps. */
  function Verdict(mode: string, vs: seq<StepValidation>): (r: ValidationResult)
    ensures r.totalSteps == |vs| && r.supportedSteps == CountSupported(vs) && r.stepValidations == vs
    ensures r.allSupported <==> AllSupported(vs)
  {
    var all := AllSupported(vs);
    var supported := CountSupported(vs);
    var status := if mode == "strict" then (if all then Passed else Failed)
                  else if supported < |vs| then Partial else Passed;
    var message := if mode == "strict" then (if all then AllValidated else NoSupportedSolution)
                   else CountMessage(supported, |vs|);
    ValidationResult(status, message, mode, all, vs, |vs|, supported)
  }

  lemma PrefixSnoc<T>(s: seq<T>, k: nat)
    requires k < |s|
    ensures s[..k + 1] == s[..k] + [s[k]]
  {
  }

  /** The step loop of `validate_solution`: validate every non-blank step, noting
      whether all were supported. */
  method ValidateSteps(check: string -> StepVerdict, steps: seq<Generator.SolutionStep>)
    returns (validationResults: seq<StepValidation>, allSupported: bool)
    ensures validationResults == Validations(check, steps)
    ensures allSupported <==> AllSupported(validationResults)
  {
    validationResults := [];
    allSupported := true;
    var k := 0;
    while k < |steps|
      invariant 0 <= k <= |steps|
      invariant validationResults == Validations(check, steps[..k])
      invariant allSupported <==> AllSupported(validationResults)
    {
      var step := steps[k];
      PrefixSnoc(steps, k);
      ValidationsSnoc(check, steps[..k], step);
      if !IsBlank(step.text) {
        var stepValidation := check(step.text);
        var record := Validation(check, step);
        AllSupportedSnoc(validationResults, record);
        validationResults := validationResults + [record];
        if !stepValidation.supported {
          allSupported := false;
        }
      }
      k := k + 1;
    }
    assert steps[..|steps|] == steps;
  }

  /** `validate_solution` */
  method ValidateSolution(cfg: Config, o: Oracles, steps: seq<Generator.SolutionStep>, chunks: seq<Retrieve.Hit>,
                          mode: string)
    returns (r: ValidationResult)
    ensures r == Verdict(mode, Validations(Checker(cfg, o, chunks), steps))
  {
    var validationResults, allSupported := ValidateSteps(Checker(cfg, o, chunks), steps);
    var supportedCount := SupportedCount(validationResults);
    var status, message;
    if mode == "strict" && !allSupported {
      status, message := Failed, NoSupportedSolution;
    } else if mode == "strict" && allSupported {
      status, message := Passed, AllValidated;
    } else {
      status := if supportedCount < |validationResults| then Partial else Passed;
      message := CountMessage(supportedCount, |validationResults|);
    }
    r := ValidationResult(status, message, mode, allSupported, validationResults, |validationResults|, supportedCount);
  }

  /** `sum(1 for r in validation_results if r['supported'])` */
  method SupportedCount(vs: seq<StepValidation>) returns (n: nat)
    ensures n == CountSupported(vs)
  {
    n := 0;
    var k := 0;
    while k < |vs|
      invariant 0 <= k <= |vs|
      invariant n == CountSupported(vs[..k])
    {
      assert vs[..k + 1][..k] == vs[..k];
      if vs[k].supported {
        n := n + 1;
      }
      k := k + 1;
    }
    assert vs[..|vs|] == vs;
  }

  /** Strict mode fails, with the fixed refusal, exactly when some step is unsupported,
      and passes otherwise. */
  lemma StrictVerdict(vs: seq<StepValidation>)
    ensures var r := Verdict("strict", vs);
            (r.status == Failed <==> exists k :: 0 <= k < |vs| && !vs[k].supported) &&
            (r.status == Failed ==> r.message == NoSupportedSolution) &&
            (r.status != Failed ==> r.status == Passed && r.message == AllValidated)
  {
  }

  /** Any other mode never fails: it passes iff every step is supported, and is partial
      otherwise, with the count in the message. */
  lemma PreferVerdict(mode: string, vs: seq<StepValidation>)
    requires mode != "strict"
    ensures var r := Verdict(mode, vs);
            r.status != Failed &&
            (r.status == Passed <==> AllSupported(vs)) &&
            r.message == CountMessage(CountSupported(vs), |vs|) &&
            r.supportedSteps <= r.totalSteps
  {
    CountSupportedSpec(vs);
  }

  /** Only the non-blank steps are validated, in their order, each against all chunks. */
  lemma ValidationsSpec(check: string -> StepVerdict, steps: seq<Generator.SolutionStep>)
    ensures var vs := Validations(check, steps);
            var nb := NonBlankSteps(steps);
            |vs| == |nb| &&
            forall k :: 0 <= k < |vs| ==>
              vs[k].stepText == nb[k].text && !IsBlank(vs[k].stepText) && vs[k].stepNum == nb[k].stepNum &&
              vs[k].citationsFound == nb[k].citations && vs[k].unsupportedFlag == nb[k].unsupported &&
              vs[k].supported == check(nb[k].text).supported
    ensures (forall k :: 0 <= k < |steps| ==> IsBlank(steps[k].text)) ==> Validations(check, steps) == []
  {
    ValidationsAreNonBlank(check, steps);
    BlankStepsDropped(steps);
  }

  lemma {:induction false} ValidationsAreNonBlank(check: string -> StepVerdict, steps: seq<Generator.SolutionStep>)
    ensures var vs := Validations(check, steps);
            var nb := NonBlankSteps(steps);
            |vs| == |nb| && forall k :: 0 <= k < |vs| ==> vs[k] == Validation(check, nb[k])
  {
    if steps != [] {
      var init := steps[..|steps| - 1];
      ValidationsAreNonBlank(check, init);
      var vs, nb := Validations(check, steps), NonBlankSteps(steps);
      var vi, ni := Validations(check, init), NonBlankSteps(init);
      var last := steps[|steps| - 1];
      if IsBlank(last.text) {
        assert vs == vi && nb == ni;
      } else {
        assert vs == vi + [Validation(check, last)] && nb == ni + [last];
        forall k | 0 <= k < |vs| ensures vs[k] == Validation(check, nb[k]) {
          if k < |vi| {
            assert vs[k] == vi[k] && nb[k] == ni[k];
          }
        }
      }
    }
  }

  lemma {:induction false} BlankStepsDropped(steps: seq<Generator.SolutionStep>)
    ensures (forall k :: 0 <= k < |steps| ==> IsBlank(steps[k].text)) ==> NonBlankSteps(steps) == []
  {
    if steps != [] {
      BlankStepsDropped(steps[..|steps| - 1]);
    }
  }

  /** With no chunks, nothing is supported: strict mode fails as soon as one step has text. */
  lemma NoChunksNoSupport(cfg: Config, o: Oracles, steps: seq<Generator.SolutionStep>)
    ensures var vs := Validations(Checker(cfg, o, []), steps);
            forall k :: 0 <= k < |vs| ==> !vs[k].supported
  {
  }

  /** `validate_strict_mode`: parse the solution, validate it strictly with the default
      settings, and return the solution or the fixed refusal. */
  method ValidateStrictMode(o: Oracles, solutionText: string, chunks: seq<Retrieve.Hit>) returns (valid: bool, text: string)
    ensures var vs := Validations(Checker(DefaultConfig, o, chunks), Generator.Steps(solutionText));
            (valid <==> AllSupported(vs)) &&
            (valid ==> text == solutionText) &&
            (!valid ==> text == NoSupportedSolution)
  {
    var steps := Generator.ParseSolutionSteps(solutionText);
    var result := ValidateSolution(DefaultConfig, o, steps, chunks, "strict");
    if result.status == Passed {
      valid, text := true, solutionText;
    } else {
      valid, text := false, NoSupportedSolution;
    }
  }

  /** An empty solution passes strict validation, whatever the chunks: it has no step
      that could be unsupported. */
  lemma EmptySolutionPassesStrict(o: Oracles, chunks: seq<Retrieve.Hit>)
    ensures AllSupported(Validations(Checker(DefaultConfig, o, chunks), Generator.Steps("")))
    ensures Verdict("strict", Validations(Checker(DefaultConfig, o, chunks), Generator.Steps(""))).status == Passed
  {
    Generator.EmptySolutionHasNoSteps();
  }
}
