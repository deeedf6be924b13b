/**
  How a generated decoder file refers to its validator file: the file name,
  the import extension, and the `require`/`import` statement
  (`createValidatorImportStatement`).
 */
module Linkage {

  import opened Config
  import opened Templates

  /** The suffix ECMAScript-module output puts on relative imports. */
  function ImportExtension(esm: bool): (r: Chunk)
    ensures esm <==> r == ".js"
    ensures !esm <==> r == ""
  {
    if esm then ".js" else ""
  }

  /** The validator file a decoder file imports: one shared file when the
      decoders are merged, one per definition otherwise. */
  function ValidatorFileName(merged: bool): (r: string)
    ensures merged <==> r == "validators"
    ensures !merged <==> r == "validator"
  {
    if merged then "validators" else "validator"
  }

  /** The opening of the statement: a destructuring `require` for CommonJS,
      a named import for modules. */
  function StatementHead(output: ValidatorOutput): string
  {
    match output
    case CommonJs => "const { "
    case Module => "import { "
  }

  /** The rest of the statement after the imported names. */
  function StatementTail(output: ValidatorOutput, merged: bool, esm: bool): string
  {
    match output
    case CommonJs => " } = require(\"./" + ValidatorFileName(merged) + "\")"
    case Module => " } from './" + ValidatorFileName(merged) + ImportExtension(esm) + "'"
  }

  /** The statement that brings the validators `names` (already joined by
      `", "`) into a decoder file. Only module output honours the ESM
      extension. */
  function ValidatorImportStatement(names: string, output: ValidatorOutput, merged: bool, esm: bool): (r: string)
    ensures r == StatementHead(output) + names + StatementTail(output, merged, esm)
  {
    match output
    case CommonJs => "const { " + names + " } = require(\"./" + ValidatorFileName(merged) + "\")"
    case Module => "import { " + names + " } from './" + ValidatorFileName(merged) + ImportExtension(esm) + "'"
  }

  /** The statement brings in no `$` of its own. */
  lemma StatementAvoids(names: string, output: ValidatorOutput, merged: bool, esm: bool)
    requires '$' !in names
    ensures '$' !in ValidatorImportStatement(names, output, merged, esm)
  {
    var file := ValidatorFileName(merged);
    assert '$' !in file;
    match output
    case CommonJs =>
      assert '$' !in " } = require(\"./" + file + "\")";
    case Module =>
      assert '$' !in " } from './" + file + ImportExtension(esm) + "'";
  }

  /** Two texts that are equal keep equal characters at the same distance
      from their ends. */
  lemma SameEnding(n1: string, t1: string, n2: string, t2: string, k: nat)
    requires n1 + t1 == n2 + t2
    requires 1 <= k <= |t1| && k <= |t2|
    ensures t1[|t1| - k] == t2[|t2| - k]
  {
    var s := n1 + t1;
    assert s[|s| - k] == t1[|t1| - k];
  }

  /** The statement determines everything it was made from: the imported
      names, the output mode, whether the validators are merged, and, for
      module output, whether the ESM extension is used. CommonJS output is the
      same with and without ESM. */
  lemma ImportStatementDetermines(
    n1: string, o1: ValidatorOutput, m1: bool, e1: bool,
    n2: string, o2: ValidatorOutput, m2: bool, e2: bool)
    requires ValidatorImportStatement(n1, o1, m1, e1) == ValidatorImportStatement(n2, o2, m2, e2)
    ensures n1 == n2 && o1 == o2 && m1 == m2
    ensures o1 == Module ==> e1 == e2
  {
    HeadsDetermine(n1, StatementTail(o1, m1, e1), o1, n2, StatementTail(o2, m2, e2), o2);
    TailsDetermine(n1, o1, m1, e1, n2, m2, e2);
  }

  /** The head fixes the output mode; what follows it is then the same. */
  lemma HeadsDetermine(n1: string, t1: string, o1: ValidatorOutput, n2: string, t2: string, o2: ValidatorOutput)
    requires StatementHead(o1) + n1 + t1 == StatementHead(o2) + n2 + t2
    ensures o1 == o2 && n1 + t1 == n2 + t2
  {
    var h1, h2 := StatementHead(o1), StatementHead(o2);
    assert (h1 + n1 + t1)[0] == h1[0] && (h2 + n2 + t2)[0] == h2[0];
    assert h1 + n1 + t1 == h1 + (n1 + t1) && h2 + n2 + t2 == h2 + (n2 + t2);
    SamePrefix(h1, n1 + t1, n2 + t2);
  }

  /** What follows a common prefix is the same. */
  lemma SamePrefix(h: string, a: string, b: string)
    requires h + a == h + b
    ensures a == b
  {
    assert a == (h + a)[|h|..] && b == (h + b)[|h|..];
  }

  /** The tail after the names fixes the names and the remaining choices. */
  lemma TailsDetermine(n1: string, o: ValidatorOutput, m1: bool, e1: bool, n2: string, m2: bool, e2: bool)
    requires n1 + StatementTail(o, m1, e1) == n2 + StatementTail(o, m2, e2)
    ensures n1 == n2 && m1 == m2
    ensures o == Module ==> e1 == e2
  {
    match o {
      case CommonJs => CommonJsTails(n1, m1, e1, n2, m2, e2);
      case Module => ModuleTails(n1, m1, e1, n2, m2, e2);
    }
    EqualEndings(n1, StatementTail(o, m1, e1), n2, StatementTail(o, m2, e2));
  }

  /** `validators")` and `validator")` differ three characters from the end. */
  lemma CommonJsTails(n1: string, m1: bool, e1: bool, n2: string, m2: bool, e2: bool)
    requires n1 + StatementTail(CommonJs, m1, e1) == n2 + StatementTail(CommonJs, m2, e2)
    ensures m1 == m2 && StatementTail(CommonJs, m1, e1) == StatementTail(CommonJs, m2, e2)
  {
    SameEnding(n1, StatementTail(CommonJs, m1, e1), n2, StatementTail(CommonJs, m2, e2), 3);
  }

  /** `.js'` puts a `j` three characters from the end, where the other
      endings have an `r` or an `s`; the fifth or second character from the
      end then tells the file names apart. */
  lemma ModuleTails(n1: string, m1: bool, e1: bool, n2: string, m2: bool, e2: bool)
    requires n1 + StatementTail(Module, m1, e1) == n2 + StatementTail(Module, m2, e2)
    ensures m1 == m2 && e1 == e2
  {
    var t1, t2 := StatementTail(Module, m1, e1), StatementTail(Module, m2, e2);
    SameEnding(n1, t1, n2, t2, 3);
    if e1 {
      SameEnding(n1, t1, n2, t2, 5);
    } else {
      SameEnding(n1, t1, n2, t2, 2);
    }
  }

  /** Two texts that are equal and end in the same tail start the same. */
  lemma EqualEndings(n1: string, t1: string, n2: string, t2: string)
    requires n1 + t1 == n2 + t2 && t1 == t2
    ensures n1 == n2
  {
    var s := n1 + t1;
    assert n1 == s[..|n1|] && n2 == s[..|n2|];
  }
}
