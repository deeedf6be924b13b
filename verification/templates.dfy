/**
  Placeholder templates and the literal replace-all that fills them.

  The generator keeps each output file as a template literal in which
  placeholders such as `$DecoderName` stand for generated text, and fills it
  with a chain of `text.replace(/\$DecoderName/g, value)` calls. Here a
  template is a sequence of pieces (fixed text or a placeholder slot);
  `Flatten` gives the template literal exactly as the source spells it, `Fill`
  applies the source's chain of global replacements to that literal, and
  `Render` substitutes the slots directly. The theorem `FillRendersTemplate`
  shows the two agree whenever the values filled in before the last one
  contain no `$`.

  Replacement is literal: JavaScript would read `$&`, `$'`, `` $` ``, `$$` and
  `$1` in a replacement string as patterns; every replacement text here is
  taken verbatim.
 */
module Templates {

  import opened Optional
  import opened Strings

  /** A character other than the placeholder sigil `$`. */
  type PlainChar = c: char | c != '$' witness ' '

  /** The placeholders that occur in the generator's templates. */
  datatype Slot =
    | DecoderName | Class | ValidatorName | ValidatorImports | ModelImports
    | Decoders | Imports | Formats | Exports | Validators

  function SlotName(s: Slot): seq<PlainChar>
  {
    match s
    case DecoderName => "DecoderName"
    case Class => "Class"
    case ValidatorName => "ValidatorName"
    case ValidatorImports => "ValidatorImports"
    case ModelImports => "ModelImports"
    case Decoders => "Decoders"
    case Imports => "Imports"
    case Formats => "Formats"
    case Exports => "Exports"
    case Validators => "Validators"
  }

  /** A placeholder as a template spells it: the sigil `$` and the slot's name. */
  function Token(s: Slot): (r: string)
    ensures |r| >= 2 && r[0] == '$' && r[1] != '{' && '$' !in r[1..]
  {
    assert ("$" + SlotName(s))[1..] == SlotName(s);
    "$" + SlotName(s)
  }

  /** Fixed template text: it never contains the sigil. */
  type Chunk = seq<PlainChar>

  /** Fixed text, the two characters `${` that open an interpolation in the
      generated code, or a placeholder. */
  datatype Piece = Text(text: Chunk) | Interpolation | Hole(slot: Slot)

  type Template = seq<Piece>

  /** Values for slots, in the order the source applies its replacements. */
  type Substitution = seq<(Slot, string)>

  /** The value bound to a slot: the first binding wins. */
  function Lookup(subs: Substitution, s: Slot): Option<string>
  {
    if |subs| == 0 then None
    else if subs[0].0 == s then Some(subs[0].1)
    else Lookup(subs[1..], s)
  }

  /** A slot bound at position `i` and at no earlier position gets the value
      bound there. */
  lemma {:induction false} LookupBound(subs: Substitution, i: nat)
    requires i < |subs|
    requires forall j :: 0 <= j < i ==> subs[j].0 != subs[i].0
    ensures Lookup(subs, subs[i].0) == Some(subs[i].1)
  {
    if i > 0 {
      LookupBound(subs[1..], i - 1);
    }
  }

  function RenderPiece(p: Piece, subs: Substitution): string
  {
    match p
    case Text(x) => x
    case Interpolation => "${"
    case Hole(s) =>
      match Lookup(subs, s)
      case Some(v) => v
      case None => Token(s)
  }

  /** The first `k` pieces rendered, one after the other. */
  function RenderUpTo(t: Template, k: nat, subs: Substitution): string
    requires k <= |t|
  {
    if k == 0 then "" else RenderUpTo(t, k - 1, subs) + RenderPiece(t[k - 1], subs)
  }

  /** The template with every bound slot replaced by its value; an unbound
      slot stays in the text as its placeholder. */
  function Render(t: Template, subs: Substitution): string
  {
    RenderUpTo(t, |t|, subs)
  }

  /** A short template renders piece by piece, left to right. */
  lemma RenderOf1(p0: Piece, subs: Substitution)
    ensures Render([p0], subs)
         == RenderPiece(p0, subs)
  {
    assert RenderUpTo([p0], 1, subs) == "" + RenderPiece(p0, subs);
  }

  lemma RenderOf2(p0: Piece, p1: Piece, subs: Substitution)
    ensures Render([p0, p1], subs)
         == RenderPiece(p0, subs) + RenderPiece(p1, subs)
  {
    assert RenderUpTo([p0, p1], 1, subs) == RenderPiece(p0, subs);
  }

  lemma RenderOf3(p0: Piece, p1: Piece, p2: Piece, subs: Substitution)
    ensures Render([p0, p1, p2], subs)
         == RenderPiece(p0, subs) + RenderPiece(p1, subs) + RenderPiece(p2, subs)
  {
    assert RenderUpTo([p0, p1, p2], 1, subs) == RenderPiece(p0, subs);
    assert RenderUpTo([p0, p1, p2], 2, subs) == RenderPiece(p0, subs) + RenderPiece(p1, subs);
  }

  lemma RenderOf4(p0: Piece, p1: Piece, p2: Piece, p3: Piece, subs: Substitution)
    ensures Render([p0, p1, p2, p3], subs)
         == RenderPiece(p0, subs) + RenderPiece(p1, subs) + RenderPiece(p2, subs) + RenderPiece(p3, subs)
  {
    assert RenderUpTo([p0, p1, p2, p3], 1, subs) == RenderPiece(p0, subs);
    assert RenderUpTo([p0, p1, p2, p3], 2, subs) == RenderPiece(p0, subs) + RenderPiece(p1, subs);
    assert RenderUpTo([p0, p1, p2, p3], 3, subs) == RenderPiece(p0, subs) + RenderPiece(p1, subs) + RenderPiece(p2, subs);
  }

  lemma RenderOf5(p0: Piece, p1: Piece, p2: Piece, p3: Piece, p4: Piece, subs: Substitution)
    ensures Render([p0, p1, p2, p3, p4], subs)
         == RenderPiece(p0, subs) + RenderPiece(p1, subs) + RenderPiece(p2, subs) + RenderPiece(p3, subs) + RenderPiece(p4, subs)
  {
    assert RenderUpTo([p0, p1, p2, p3, p4], 1, subs) == RenderPiece(p0, subs);
    assert RenderUpTo([p0, p1, p2, p3, p4], 2, subs) == RenderPiece(p0, subs) + RenderPiece(p1, subs);
    assert RenderUpTo([p0, p1, p2, p3, p4], 3, subs) == RenderPiece(p0, subs) + RenderPiece(p1, subs) + RenderPiece(p2, subs);
    assert RenderUpTo([p0, p1, p2, p3, p4], 4, subs) == RenderPiece(p0, subs) + RenderPiece(p1, subs) + RenderPiece(p2, subs) + RenderPiece(p3, subs);
  }

  /** The template literal as the source writes it. */
  function Flatten(t: Template): string
  {
    Render(t, [])
  }

  /** `s.replace(/<pat>/g, rep)` for a pattern without regular-expression
      operators: occurrences are found left to right, do not overlap, and the
      inserted text is never scanned again. An absent pattern is a no-op. */
  function ReplaceAll(s: string, pat: string, rep: string): (r: string)
    requires |pat| > 0
    ensures pat[0] !in s ==> r == s
    decreases |s|
  {
    if |s| < |pat| then s
    else if s[..|pat|] == pat then rep + ReplaceAll(s[|pat|..], pat, rep)
    else [s[0]] + ReplaceAll(s[1..], pat, rep)
  }

  /** The source's chain `text.replace(/\$A/g, a).replace(/\$B/g, b)...`. */
  function Fill(s: string, subs: Substitution): string
    decreases |subs|
  {
    if |subs| == 0 then s
    else Fill(ReplaceAll(s, Token(subs[0].0), subs[0].1), subs[1..])
  }

  /** Binds the slot `k` once and for all, turning it into fixed text. */
  function Substitute(t: Template, k: Slot, v: Chunk): (r: Template)
    ensures |r| == |t|
  {
    seq(|t|, i requires 0 <= i < |t| => if t[i] == Hole(k) then Text(v) else t[i])
  }

  // ---------------------------------------------------------------------------
  // Rendering is a homomorphism from template concatenation to text concatenation.

  /** Rendering a prefix looks only at the pieces in that prefix. */
  lemma {:induction false} RenderUpToSamePrefix(t: Template, u: Template, k: nat, subs: Substitution)
    requires k <= |t| && k <= |u|
    requires forall i :: 0 <= i < k ==> t[i] == u[i]
    ensures RenderUpTo(t, k, subs) == RenderUpTo(u, k, subs)
  {
    if k > 0 {
      RenderUpToSamePrefix(t, u, k - 1, subs);
    }
  }

  lemma {:induction false} RenderUpToAppend(a: Template, b: Template, k: nat, subs: Substitution)
    requires k <= |b|
    ensures RenderUpTo(a + b, |a| + k, subs) == Render(a, subs) + RenderUpTo(b, k, subs)
  {
    if k == 0 {
      RenderUpToSamePrefix(a + b, a, |a|, subs);
    } else {
      RenderUpToAppend(a, b, k - 1, subs);
      assert (a + b)[|a| + k - 1] == b[k - 1];
      var x, y, z := Render(a, subs), RenderUpTo(b, k - 1, subs), RenderPiece(b[k - 1], subs);
      assert x + y + z == x + (y + z);
    }
  }

  lemma RenderAppend(a: Template, b: Template, subs: Substitution)
    ensures Render(a + b, subs) == Render(a, subs) + Render(b, subs)
  {
    RenderUpToAppend(a, b, |b|, subs);
  }

  lemma RenderCons(p: Piece, t: Template, subs: Substitution)
    ensures Render([p] + t, subs) == RenderPiece(p, subs) + Render(t, subs)
  {
    RenderAppend([p], t, subs);
    assert RenderUpTo([p], 1, subs) == "" + RenderPiece(p, subs) == RenderPiece(p, subs);
  }

  // ---------------------------------------------------------------------------
  // How one global replacement walks over a flattened template.

  /** Where the text does not start with the pattern's first character,
      the scan copies one character and moves on. */
  lemma CopyOne(s: string, pat: string, rep: string)
    requires |pat| > 0 && |s| > 0 && s[0] != pat[0]
    ensures ReplaceAll(s, pat, rep) == [s[0]] + ReplaceAll(s[1..], pat, rep)
  {
    if |s| >= |pat| {
      assert s[..|pat|][0] != pat[0];
    } else {
      assert [s[0]] + s[1..] == s;
    }
  }

  /** A text without the pattern's first character is copied unchanged. */
  lemma {:induction false} SkipPlain(x: string, s: string, pat: string, rep: string)
    requires |pat| > 0 && pat[0] !in x
    ensures ReplaceAll(x + s, pat, rep) == x + ReplaceAll(s, pat, rep)
    decreases |x|
  {
    if |x| == 0 {
      assert x + s == s;
    } else {
      var xs := x + s;
      assert xs[0] == x[0] && xs[1..] == x[1..] + s;
      CopyOne(xs, pat, rep);
      SkipPlain(x[1..], s, pat, rep);
      var a, b, c := [x[0]], x[1..], ReplaceAll(s, pat, rep);
      assert a + (b + c) == (a + b) + c;
      assert a + b == x;
    }
  }

  /** The interpolation opener `${` never starts a placeholder. */
  lemma SkipInterpolation(s: string, k: Slot, rep: string)
    ensures ReplaceAll("${" + s, Token(k), rep) == "${" + ReplaceAll(s, Token(k), rep)
  {
    var pat := Token(k);
    var xs := "${" + s;
    if |xs| >= |pat| {
      assert xs[..|pat|][1] == '{' != pat[1];
      assert xs[1..] == "{" + s;
      SkipPlain("{", s, pat, rep);
    } else {
      assert ReplaceAll(s, pat, rep) == s;
    }
  }

  lemma AtToken(k: Slot, s: string, rep: string)
    ensures ReplaceAll(Token(k) + s, Token(k), rep) == rep + ReplaceAll(s, Token(k), rep)
  {
    var xs := Token(k) + s;
    assert xs[..|Token(k)|] == Token(k);
    assert xs[|Token(k)|..] == s;
  }

  /** A position at which the placeholders of two different slots
      disagree: the initial when the names start differently, otherwise the
      letter that tells apart names sharing their first letter. */
  function FirstDifference(a: Slot, b: Slot): nat
  {
    if Initial(a) != Initial(b) then 1 else Tiebreak(a)
  }

  /** Where in its placeholder a slot whose name shares its first letter
      with another slot's differs from it: the eighth letter of `DecoderName`
      and `Decoders`, the tenth of `ValidatorName`, `ValidatorImports` and
      `Validators`. */
  function Tiebreak(s: Slot): nat
  {
    if Initial(s) == 'D' then 8 else 10
  }

  /** The first letter of a slot's name. */
  function Initial(s: Slot): char
  {
    match s
    case DecoderName => 'D'
    case Class => 'C'
    case ValidatorName => 'V'
    case ValidatorImports => 'V'
    case ModelImports => 'M'
    case Decoders => 'D'
    case Imports => 'I'
    case Formats => 'F'
    case Exports => 'E'
    case Validators => 'V'
  }

  /** The letters that tell apart names sharing a first letter: the eighth
      (`DecoderName`, `Decoders`) or the tenth (`ValidatorName`,
      `ValidatorImports`, `Validators`). */
  function Distinguishing(s: Slot): char
  {
    match s
    case DecoderName => 'N'
    case Decoders => 's'
    case ValidatorName => 'N'
    case ValidatorImports => 'I'
    case Validators => 's'
    case _ => ' '
  }

  lemma NameLetters(s: Slot)
    ensures |SlotName(s)| > 0 && SlotName(s)[0] == Initial(s)
    ensures Initial(s) in {'D', 'V'} ==>
              Tiebreak(s) - 1 < |SlotName(s)| && SlotName(s)[Tiebreak(s) - 1] == Distinguishing(s)
  {
  }

  /** Names that share their first letter are told apart at the tiebreak. */
  lemma SharedInitials(a: Slot, b: Slot)
    requires a != b && Initial(a) == Initial(b)
    ensures Initial(a) in {'D', 'V'} && Tiebreak(a) == Tiebreak(b) && Distinguishing(a) != Distinguishing(b)
  {
  }

  lemma TokensDiffer(a: Slot, b: Slot)
    requires a != b
    ensures var i := FirstDifference(a, b);
            i < |Token(a)| && i < |Token(b)| && Token(a)[i] != Token(b)[i]
  {
    NameLetters(a);
    NameLetters(b);
    if Initial(a) == Initial(b) {
      SharedInitials(a, b);
    }
    var i := FirstDifference(a, b);
    assert Token(a)[i] == SlotName(a)[i - 1] && Token(b)[i] == SlotName(b)[i - 1];
  }

  lemma SkipDiffering(x: string, s: string, pat: string, rep: string, i: nat)
    requires |pat| > 0 && |x| > 0 && x[0] == pat[0] && pat[0] !in x[1..]
    requires i < |x| && i < |pat| && x[i] != pat[i]
    ensures ReplaceAll(x + s, pat, rep) == x + ReplaceAll(s, pat, rep)
  {
    var xs := x + s;
    assert xs[1..] == x[1..] + s;
    assert |xs| >= |pat| ==> xs[..|pat|][i] != pat[i];
    assert ReplaceAll(xs, pat, rep) == [xs[0]] + ReplaceAll(xs[1..], pat, rep);
    SkipPlain(x[1..], s, pat, rep);
    var a, b, c := [x[0]], x[1..], ReplaceAll(s, pat, rep);
    assert a + (b + c) == (a + b) + c;
    assert a + b == x;
  }

  /** The placeholder of another slot is copied unchanged. */
  lemma SkipOtherToken(j: Slot, k: Slot, s: string, rep: string)
    requires j != k
    ensures ReplaceAll(Token(j) + s, Token(k), rep) == Token(j) + ReplaceAll(s, Token(k), rep)
  {
    TokensDiffer(j, k);
    SkipDiffering(Token(j), s, Token(k), rep, FirstDifference(j, k));
  }

  /** One global replacement of a slot's placeholder in the template literal
      is the template with that one slot bound. */
  lemma {:induction false} ReplaceOnePass(t: Template, k: Slot, rep: string)
    ensures ReplaceAll(Flatten(t), Token(k), rep) == Render(t, [(k, rep)])
    decreases |t|
  {
    if |t| > 0 {
      assert [t[0]] + t[1..] == t;
      RenderCons(t[0], t[1..], []);
      RenderCons(t[0], t[1..], [(k, rep)]);
      ReplaceOnePass(t[1..], k, rep);
      match t[0]
      case Text(c) =>
        assert '$' !in c;
        SkipPlain(c, Flatten(t[1..]), Token(k), rep);
      case Interpolation =>
        SkipInterpolation(Flatten(t[1..]), k, rep);
      case Hole(j) =>
        assert [(k, rep)][1..] == [];
        if j == k {
          AtToken(k, Flatten(t[1..]), rep);
        } else {
          SkipOtherToken(j, k, Flatten(t[1..]), rep);
        }
    }
  }

  /** Binding a slot as fixed text and rendering the rest is rendering with
      that binding put first. */
  lemma {:induction false} RenderUpToSubstitute(t: Template, k: Slot, v: Chunk, rest: Substitution, n: nat)
    requires n <= |t|
    ensures RenderUpTo(Substitute(t, k, v), n, rest) == RenderUpTo(t, n, [(k, v)] + rest)
  {
    if n > 0 {
      RenderUpToSubstitute(t, k, v, rest, n - 1);
      assert ([(k, v)] + rest)[1..] == rest;
    }
  }

  lemma RenderSubstitute(t: Template, k: Slot, v: Chunk, rest: Substitution)
    ensures Render(Substitute(t, k, v), rest) == Render(t, [(k, v)] + rest)
  {
    RenderUpToSubstitute(t, k, v, rest, |t|);
  }

  /** The literal replace-all chain the source applies to a template literal
      produces the template with its slots substituted, provided every value
      but the last one is free of `$` (so that no inserted text can be taken
      for a later placeholder). */
  lemma {:induction false} FillRendersTemplate(t: Template, subs: Substitution)
    requires forall i :: 0 <= i < |subs| - 1 ==> '$' !in subs[i].1
    ensures Fill(Flatten(t), subs) == Render(t, subs)
    decreases |subs|
  {
    if |subs| > 0 {
      var (k, v) := subs[0];
      ReplaceOnePass(t, k, v);
      assert [(k, v)] + subs[1..] == subs;
      if |subs| == 1 {
        assert [(k, v)] == subs;
      } else {
        assert forall i :: 0 <= i < |v| ==> v[i] != '$';
        var t' := Substitute(t, k, v);
        RenderSubstitute(t, k, v, []);
        assert [(k, v)] + [] == [(k, v)];
        FillRendersTemplate(t', subs[1..]);
        RenderSubstitute(t, k, v, subs[1..]);
      }
    }
  }

  // ---------------------------------------------------------------------------
  // Trimming a template framed by line breaks.

  lemma RenderFirst(t: Template, subs: Substitution)
    requires |t| > 0
    ensures Render(t, subs) == RenderPiece(t[0], subs) + Render(t[1..], subs)
  {
    RenderCons(t[0], t[1..], subs);
    assert [t[0]] + t[1..] == t;
  }

  /** A template between an opening and a closing line break, the way the
      generator writes its per-definition templates. */
  function Framed(body: Template): Template
  {
    [Text("\n")] + body + [Text("\n")]
  }

  lemma RenderFramed(body: Template, subs: Substitution)
    ensures Render(Framed(body), subs) == "\n" + Render(body, subs) + "\n"
  {
    var nl: Template := [Text("\n")];
    RenderAppend(nl, body, subs);
    RenderAppend(nl + body, nl, subs);
    RenderOf1(Text("\n"), subs);
  }

  /** A framed body whose rendering neither starts nor ends with whitespace
      trims to the body's rendering; this holds for the per-definition
      templates, whose first and last pieces are fixed text. */
  lemma TrimFramedTemplate(body: Template, subs: Substitution)
    requires |body| > 0 && body[0].Text? && |body[0].text| > 0 && !IsJsWhitespace(body[0].text[0])
    requires var last := body[|body| - 1];
             last.Text? && |last.text| > 0 && !IsJsWhitespace(last.text[|last.text| - 1])
    ensures Trim(Render(Framed(body), subs)) == Render(body, subs)
  {
    RenderFramed(body, subs);
    RenderFirst(body, subs);
    var x := Render(body, subs);
    assert x[0] == body[0].text[0];
    assert x[|x| - 1] == body[|body| - 1].text[|body[|body| - 1].text| - 1];
    TrimFramed(x);
  }
}
