/**
 * The command line names each added image after its file:
 * `file.split(".")[0]`, the part of the file name before its first dot.
 */
module FileNames {

  function TemplateName(file: string): (name: string)
    ensures name <= file
    ensures '.' !in name
    ensures |name| < |file| ==> file[|name|] == '.'
  {
    if file == [] || file[0] == '.' then [] else [file[0]] + TemplateName(file[1..])
  }

  /** The three properties above pin the name down: it is the only such prefix. */
  lemma {:induction false} TemplateNameUnique(file: string, name: string)
    requires name <= file && '.' !in name
    requires |name| < |file| ==> file[|name|] == '.'
    ensures name == TemplateName(file)
  {
    if name != [] {
      assert file[0] == name[0];
      TemplateNameUnique(file[1..], name[1..]);
    }
  }

  /** `"big_tree.png"` is stored as `"big_tree"`. */
  lemma TemplateNameOfStemAndExtension(stem: string, extension: string)
    requires '.' !in stem
    ensures TemplateName(stem + "." + extension) == stem
  {
    var file := stem + "." + extension;
    assert file[|stem|] == '.';
    TemplateNameUnique(file, stem);
  }

  /** Naming is idempotent: a template name names itself. */
  lemma TemplateNameIdempotent(file: string)
    ensures TemplateName(TemplateName(file)) == TemplateName(file)
  {
    TemplateNameUnique(TemplateName(file), TemplateName(file));
  }
}
