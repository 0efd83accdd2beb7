/** The command line handed to the external viewer (line 505). */
module ExternalViewer {
  import opened Text

  const Placeholder: string := "%1"

  /** Every "%1" of the configured arguments becomes the file name; without
      one, the file name is appended after a space. */
  function ViewerArgs(arg: string, file: string): string {
    if Contains(arg, Placeholder) then ReplaceAll(arg, Placeholder, file) else arg + " " + file
  }

  /** Whatever the configured arguments are, the file name reaches the viewer. */
  lemma ViewerArgsNameTheFile(arg: string, file: string)
    ensures Contains(ViewerArgs(arg, file), file)
  {
    if Contains(arg, Placeholder) {
      ReplacePresent(arg, Placeholder, file);
    } else {
      var r := arg + " " + file;
      assert r[|arg| + 1..|arg| + 1 + |file|] == file;
      assert OccursAt(r, file, |arg| + 1);
    }
  }

  /** Arguments without a placeholder are kept and the file name follows
      them after one space; a plain `Replace` would have left such
      arguments without the file name, which is why the test comes first. */
  lemma ViewerArgsShape(arg: string, file: string)
    ensures !Contains(arg, Placeholder) ==>
      ViewerArgs(arg, file) == arg + " " + file && ReplaceAll(arg, Placeholder, file) == arg
  {
    if !Contains(arg, Placeholder) {
      ReplaceAbsent(arg, Placeholder, file);
    }
  }
}
