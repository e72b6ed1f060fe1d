/**
 * The project action "Change Text Encoding" (ChangeEncodingAction): its menu
 * label, the guess of a file's code type from its extension, and the test of
 * whether the action applies to a project member.
 */
module ChangeEncodingAction {
  import opened Text

  const ActionName: string := "Change Text Encoding"

  /** A file, reduced to what the action looks at: its name and its extension. */
  datatype File = File(name: string, extension: string)

  /** A project member; its file may be missing. */
  datatype Member = Member(file: Option<File>)

  /** A code type of the host's code editor: the extension it claims and its charset. */
  datatype CodeType = CodeType(extension: string, encoding: string)

  /** getLabel: the action name followed by an ellipsis. */
  function Label(): (r: string)
    ensures |r| == |ActionName| + 1
    ensures r[..|ActionName|] == ActionName && r[|ActionName|] == '…'
  {
    ActionName + "…"
  }

  /** The position of the first type, in declaration order, that claims `ext`. */
  function FirstMatch(types: seq<CodeType>, ext: string): (r: Option<nat>)
    ensures r.Some? ==> r.value < |types| && types[r.value].extension == ext
    ensures r.Some? ==> forall j :: 0 <= j < r.value ==> types[j].extension != ext
    ensures r.None? ==> forall j :: 0 <= j < |types| ==> types[j].extension != ext
  {
    if types == [] then None
    else if types[0].extension == ext then Some(0)
    else match FirstMatch(types[1..], ext)
      case None => None
      case Some(i) => Some(i + 1)
  }

  /**
   * guessCodeType: null for a null file, otherwise the first code type whose
   * extension equals the file's extension, or null when none does.
   */
  function GuessedType(f: Option<File>, types: seq<CodeType>): (r: Option<CodeType>)
    ensures f.None? ==> r.None?
    ensures r.Some? ==> exists i :: 0 <= i < |types| && types[i] == r.value &&
                                    forall j :: 0 <= j < i ==> types[j].extension != r.value.extension
    ensures r.Some? ==> f.Some? && r.value.extension == f.value.extension
    ensures f.Some? && r.None? ==> forall j :: 0 <= j < |types| ==> types[j].extension != f.value.extension
  {
    if f.None? then None
    else match FirstMatch(types, f.value.extension)
      case None => None
      case Some(i) => Some(types[i])
  }

  /** guessCodeType's search loop over the code types. */
  method GuessCodeType(f: Option<File>, types: seq<CodeType>) returns (r: Option<CodeType>)
    ensures r == GuessedType(f, types)
  {
    if f.Some? {
      var ext := f.value.extension;
      var i := 0;
      while i < |types|
        invariant 0 <= i <= |types|
        invariant forall j :: 0 <= j < i ==> types[j].extension != ext
      {
        if types[i].extension == ext {
          assert FirstMatch(types, ext) == Some(i);
          return Some(types[i]);
        }
        i := i + 1;
      }
    }
    return None;
  }

  /** appliesTo: never for a null member, otherwise when a code type is guessed. */
  predicate AppliesTo(member: Option<Member>, types: seq<CodeType>)
  {
    member.Some? && GuessedType(member.value.file, types).Some?
  }

  /** The action applies exactly to members whose file has a known extension. */
  lemma AppliesToMeaning(member: Option<Member>, types: seq<CodeType>)
    ensures AppliesTo(member, types) <==>
      member.Some? && member.value.file.Some? &&
      exists i :: 0 <= i < |types| && types[i].extension == member.value.file.value.extension
  {
    if member.Some? && member.value.file.Some? {
      var ext := member.value.file.value.extension;
      if exists i :: 0 <= i < |types| && types[i].extension == ext {
        var i :| 0 <= i < |types| && types[i].extension == ext;
        assert FirstMatch(types, ext).Some?;
      }
    }
  }
}
