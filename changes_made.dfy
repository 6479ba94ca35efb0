/** `get_diffs_message` of `ModifyBot`: the "changes made" section shown to the
    bots, built from what the bot was constructed with and the file as it is now. */
module ChangesMade {
  import opened Collaborators

  /** The fields of `ModifyBot` the message reads; `additional_diffs` is set to
      the empty string by the constructor and never changed. */
  datatype History = History(oldFileContents: string, currentFileDiff: string, additionalDiffs: string)

  const Header := "\n# Changes Made\nHere are changes we already made to this file:\n<diff>\n"

  const Footer := "\n</diff>\n"

  const Elision := "\n...\n"

  /** The diff body of the four branches. */
  function DiffBody(tools: Tools, h: History, file: string): string
  {
    if h.currentFileDiff == "" then tools.generateDiff(h.oldFileContents, file)
    else if h.oldFileContents == file then h.currentFileDiff
    else h.oldFileContents + Elision + tools.generateDiff(h.oldFileContents, file)
  }

  /** `get_diffs_message(file_contents)`. */
  function DiffsMessage(tools: Tools, h: History, file: string): string
  {
    if h.currentFileDiff == "" && h.oldFileContents == file then h.additionalDiffs
    else Header + DiffBody(tools, h, file) + h.additionalDiffs + Footer
  }

  /** The bots are shown no "changes made" message at all exactly when nothing
      was recorded, the file is unchanged and there are no additional diffs. */
  lemma MessageEmptyIff(tools: Tools, h: History, file: string)
    ensures DiffsMessage(tools, h, file) == ""
        <==> h.currentFileDiff == "" && h.oldFileContents == file && h.additionalDiffs == ""
  {
    if !(h.currentFileDiff == "" && h.oldFileContents == file) {
      MessageShape(tools, h, file);
    }
  }

  /** In every other case the message is one `<diff>` section that ends with the
      additional diffs. */
  lemma MessageShape(tools: Tools, h: History, file: string)
    requires !(h.currentFileDiff == "" && h.oldFileContents == file)
    ensures var m := DiffsMessage(tools, h, file);
      |Header| + |Footer| <= |m|
      && m[..|Header|] == Header
      && m[|m| - |h.additionalDiffs + Footer|..] == h.additionalDiffs + Footer
  {
    var m := DiffsMessage(tools, h, file);
    var body := DiffBody(tools, h, file);
    assert m == Header + (body + h.additionalDiffs + Footer);
    assert m == (Header + body) + (h.additionalDiffs + Footer);
  }

  /** The section's body is the recorded diff when the file is unchanged, and
      otherwise ends with `generate_diff(old, file)`. */
  lemma MessageBody(tools: Tools, h: History, file: string)
    requires !(h.currentFileDiff == "" && h.oldFileContents == file)
    ensures h.oldFileContents == file ==>
      DiffsMessage(tools, h, file) == Header + h.currentFileDiff + h.additionalDiffs + Footer
    ensures h.oldFileContents != file ==>
      exists prefix :: DiffsMessage(tools, h, file)
        == Header + prefix + tools.generateDiff(h.oldFileContents, file) + h.additionalDiffs + Footer
  {
    if h.oldFileContents != file {
      var m := DiffsMessage(tools, h, file);
      var d := tools.generateDiff(h.oldFileContents, file);
      if h.currentFileDiff == "" {
        assert m == Header + "" + d + h.additionalDiffs + Footer;
      } else {
        assert m == Header + (h.oldFileContents + Elision) + d + h.additionalDiffs + Footer;
      }
    }
  }
}
