/**
 * The Change Encoding dialog (ChangeEncodingDialog): two charset lists (input
 * and output), an information label, and a save button whose enabled state
 * follows the error shown. Decoding, encodability and file reading are
 * library I/O; their outcomes are parameters of the operations.
 */
module ChangeEncodingDialog {
  import opened Text
  import opened ChangeEncodingAction
  import opened CharsetOrder

  const Utf8: string := "UTF-8"
  const UnableToRead: string := "Unable to read input file"
  const NotValid: string := "Not a valid encoding for this file"
  const Incompatible: string := "Text is incompatible with output encoding"

  /** The part of the dialog the operations read and write. */
  datatype Dialog = Dialog(
    file: Option<File>,
    fileBytes: Option<seq<bv8>>,
    inSelection: Option<string>,
    outSelection: Option<string>,
    info: string,
    isShowingError: bool,
    saveEnabled: bool,
    title: string)

  /** getSelectedCharset: the selection, or UTF-8 when nothing is selected. */
  function SelectedCharset(selection: Option<string>): (r: string)
    ensures selection.None? ==> r == Utf8
    ensures selection.Some? ==> r == selection.value
  {
    if selection.None? then Utf8 else selection.value
  }

  /** setInfoText: the label text, and the save button enabled exactly when no error is shown. */
  function ShowInfo(d: Dialog, text: string, error: bool): (r: Dialog)
    ensures r.info == text && r.isShowingError == error && r.saveEnabled == !error
    ensures r.(info := d.info, isShowingError := d.isShowingError, saveEnabled := d.saveEnabled) == d
  {
    d.(info := text, isShowingError := error, saveEnabled := !error)
  }

  /**
   * JList.setSelectedValue: selects the value when the list holds it.
   * Otherwise it asks for index -1, which the default selection model
   * ignores, so the previous selection stays.
   */
  function SelectValue(list: seq<string>, cs: string, previous: Option<string>): (r: Option<string>)
    ensures cs in list ==> r == Some(cs)
    ensures cs !in list ==> r == previous
  {
    if cs in list then Some(cs) else previous
  }

  /**
   * The charset setFile selects: the one given, else the charset of the code
   * type guessed from the file's extension, else UTF-8.
   */
  function ChooseCharset(f: File, cs: Option<string>, types: seq<CodeType>): (r: string)
    ensures cs.Some? ==> r == cs.value
    ensures cs.None? && GuessedType(Some(f), types).Some? ==> r == GuessedType(Some(f), types).value.encoding
    ensures cs.None? && GuessedType(Some(f), types).None? ==> r == Utf8
  {
    if cs.Some? then cs.value
    else match GuessedType(Some(f), types)
      case Some(ct) => ct.encoding
      case None => Utf8
  }

  /**
   * outEncodingListValueChanged: with a file, reports whether the previewed
   * text can be encoded with the output charset (`outputEncodable`).
   */
  function CheckOutput(d: Dialog, outputEncodable: bool): (r: Dialog)
    ensures d.file.None? ==> r == d
    ensures d.file.Some? ==> r.isShowingError == !outputEncodable && r.saveEnabled == outputEncodable
    ensures d.file.Some? ==> r.info == (if outputEncodable then "" else Incompatible)
  {
    if d.file.None? then d
    else if !outputEncodable then ShowInfo(d, Incompatible, true)
    else ShowInfo(d, "", false)
  }

  /**
   * readTextWithEncoding as written: the new dialog and whether an exception
   * escapes. `decodeOk` tells whether the strict decode of the file's bytes
   * with the input charset succeeds. Without bytes the decoder is handed a
   * null array and a NullPointerException escapes before anything changes.
   */
  function ReadTextAsWritten(d: Dialog, decodeOk: bool, outputEncodable: bool): (r: (Dialog, bool))
    ensures d.file.None? ==> r == (d, false)
    ensures d.file.Some? && d.fileBytes.None? ==> r == (d, true)
    ensures d.file.Some? && d.fileBytes.Some? ==> !r.1 && r.0.saveEnabled == decodeOk
    ensures d.file.Some? && d.fileBytes.Some? && !decodeOk ==> r.0.isShowingError && r.0.info == NotValid
    ensures d.file.Some? && d.fileBytes.Some? && decodeOk ==> r.0.isShowingError == !outputEncodable
    ensures r.0.file == d.file && r.0.fileBytes == d.fileBytes
    ensures r.0.inSelection == d.inSelection && r.0.outSelection == d.outSelection && r.0.title == d.title
  {
    if d.file.None? then (d, false)
    else if d.fileBytes.None? then (d, true)
    else if decodeOk then (CheckOutput(ShowInfo(d, "", false), outputEncodable).(saveEnabled := true), false)
    else (ShowInfo(d, NotValid, true).(saveEnabled := false), false)
  }

  /**
   * The save button is left enabled while the output-encoding error is shown:
   * the strict decode succeeds, the output charset cannot encode the text,
   * and readTextWithEncoding re-enables the button that setInfoText disabled.
   */
  lemma SaveEnabledWhileErrorShown(d: Dialog)
    requires d.file.Some? && d.fileBytes.Some?
    ensures var r := ReadTextAsWritten(d, true, false).0;
      r.isShowingError && r.info == Incompatible && r.saveEnabled
  {
  }

  /** The dialog's own promise: the save button is enabled exactly when no error is shown. */
  predicate SaveMatchesError(d: Dialog)
  {
    d.saveEnabled == !d.isShowingError
  }

  /** A dialog with a file always holds that file's bytes. */
  predicate BytesPresent(d: Dialog)
  {
    d.file.Some? ==> d.fileBytes.Some?
  }

  /**
   * readTextWithEncoding, corrected: the save button ends enabled only when
   * the decode succeeded and no error is shown.
   */
  function ReadText(d: Dialog, decodeOk: bool, outputEncodable: bool): (r: Dialog)
    requires BytesPresent(d)
    ensures d.file.None? ==> r == d
    ensures d.file.Some? ==> (r.saveEnabled <==> decodeOk && outputEncodable)
    ensures d.file.Some? && !decodeOk ==> r.isShowingError && r.info == NotValid
    ensures SaveMatchesError(d) ==> SaveMatchesError(r)
    ensures r.file == d.file && r.fileBytes == d.fileBytes
  {
    if d.file.None? then d
    else if decodeOk then
      var checked := CheckOutput(ShowInfo(d, "", false), outputEncodable);
      checked.(saveEnabled := decodeOk && !checked.isShowingError)
    else ShowInfo(d, NotValid, true).(saveEnabled := false)
  }

  /** The corrected read agrees with the code as written except for the save button. */
  lemma ReadTextDiffersOnlyInSave(d: Dialog, decodeOk: bool, outputEncodable: bool)
    requires BytesPresent(d)
    ensures ReadText(d, decodeOk, outputEncodable).(saveEnabled := false) ==
      ReadTextAsWritten(d, decodeOk, outputEncodable).0.(saveEnabled := false)
    ensures !ReadTextAsWritten(d, decodeOk, outputEncodable).1
  {
  }

  /** The state setFile reaches before its final call of inEncodingListValueChanged. */
  function LoadFile(d: Dialog, f: Option<File>, cs: Option<string>, contents: Option<seq<bv8>>,
                    types: seq<CodeType>, inList: seq<string>, outList: seq<string>): (r: Dialog)
    ensures r.file == f
    ensures f.None? ==> r.isShowingError && !r.saveEnabled && r.title == ActionName
    ensures f.Some? && contents.None? ==>
      r.fileBytes.None? && r.isShowingError && r.info == UnableToRead && r.title == ActionName
    ensures f.Some? && contents.Some? ==>
      var c := ChooseCharset(f.value, cs, types);
      && r.fileBytes == contents && !r.isShowingError
      && r.inSelection == SelectValue(inList, c, d.inSelection)
      && r.outSelection == SelectValue(outList, c, d.outSelection)
      && r.title == ActionName + " — " + f.value.name
  {
    var cleared := ShowInfo(d.(file := f), "", false);
    match f
    case None => ShowInfo(cleared, "", true).(title := ActionName)
    case Some(file) =>
      match contents
      case None => ShowInfo(cleared, UnableToRead, true).(fileBytes := None, title := ActionName)
      case Some(bytes) =>
        var c := ChooseCharset(file, cs, types);
        cleared.(fileBytes := Some(bytes), title := ActionName + " — " + file.name,
                 inSelection := SelectValue(inList, c, d.inSelection),
                 outSelection := SelectValue(outList, c, d.outSelection))
  }

  /**
   * setFile as written: `contents` is the outcome of reading the file (None:
   * an I/O error). The read error clears the method's parameter, not the
   * dialog's file, so the final read runs on a file without bytes.
   */
  function SetFileAsWritten(d: Dialog, f: Option<File>, cs: Option<string>, contents: Option<seq<bv8>>,
                            types: seq<CodeType>, inList: seq<string>, outList: seq<string>,
                            decodeOk: bool, outputEncodable: bool): (r: (Dialog, bool))
    ensures r.0.file == f
  {
    var loaded := LoadFile(d, f, cs, contents, types, inList, outList);
    ReadTextAsWritten(loaded, decodeOk, outputEncodable)
  }

  /**
   * For a file that cannot be read, setFile as written keeps the file, drops
   * its bytes, and ends with a NullPointerException from the decoder.
   */
  lemma UnreadableFileThrows(d: Dialog, file: File, cs: Option<string>, types: seq<CodeType>,
                             inList: seq<string>, outList: seq<string>, decodeOk: bool, outputEncodable: bool)
    ensures var r := SetFileAsWritten(d, Some(file), cs, None, types, inList, outList, decodeOk, outputEncodable);
      r.1 && r.0.file == Some(file) && r.0.fileBytes.None? && r.0.info == UnableToRead
  {
  }

  /**
   * setFile, corrected: a file that cannot be read is dropped from the
   * dialog, so the final read does nothing and the read error stays shown.
   */
  function SetFile(d: Dialog, f: Option<File>, cs: Option<string>, contents: Option<seq<bv8>>,
                   types: seq<CodeType>, inList: seq<string>, outList: seq<string>,
                   decodeOk: bool, outputEncodable: bool): (r: Dialog)
    ensures BytesPresent(r) && SaveMatchesError(r)
    ensures f.Some? && contents.None? ==> r.file.None? && r.isShowingError && r.info == UnableToRead
    ensures f.Some? && contents.Some? ==> r.file == f && r.fileBytes == contents
    ensures f.Some? && contents.Some? ==> (r.saveEnabled <==> decodeOk && outputEncodable)
  {
    var loaded := LoadFile(d, f, cs, contents, types, inList, outList);
    var kept := if f.Some? && contents.None? then loaded.(file := None) else loaded;
    ReadText(kept, decodeOk, outputEncodable)
  }

  /**
   * The dialog. The two list models are built once from the available
   * charsets; the input list lists all of them, the output list only those
   * that can encode.
   */
  class EncodingDialog {
    var file: Option<File>
    var fileBytes: Option<seq<bv8>>
    var inList: seq<string>
    var outList: seq<string>
    var inSelection: Option<string>
    var outSelection: Option<string>
    var info: string
    var isShowingError: bool
    var saveEnabled: bool
    var title: string

    function State(): Dialog
      reads this
    {
      Dialog(file, fileBytes, inSelection, outSelection, info, isShowingError, saveEnabled, title)
    }

    /**
     * The dialog before its constructor's final setFile call: both lists
     * built, the first entry of each selected.
     */
    constructor (available: seq<string>, encodable: set<string>)
      ensures inList == CharsetList(available, encodable, false)
      ensures outList == CharsetList(available, encodable, true)
      ensures inSelection == (if inList == [] then None else Some(inList[0]))
      ensures outSelection == (if outList == [] then None else Some(outList[0]))
      ensures file.None? && fileBytes.None? && !isShowingError && saveEnabled
    {
      var ins := CreateCharsetModel(available, encodable, false);
      var outs := CreateCharsetModel(available, encodable, true);
      inList := ins;
      outList := outs;
      inSelection := if ins == [] then None else Some(ins[0]);
      outSelection := if outs == [] then None else Some(outs[0]);
      file := None;
      fileBytes := None;
      info := "    ";
      isShowingError := false;
      saveEnabled := true;
      title := "";
    }

    /** setInfoText. */
    method SetInfoText(text: string, error: bool)
      modifies this`info, this`isShowingError, this`saveEnabled
      ensures State() == ShowInfo(old(State()), text, error)
    {
      info := text;
      saveEnabled := !error;
      isShowingError := error;
    }

    /** outEncodingListValueChanged. */
    method OutEncodingListValueChanged(outputEncodable: bool)
      modifies this`info, this`isShowingError, this`saveEnabled
      ensures State() == CheckOutput(old(State()), outputEncodable)
    {
      if file.None? {
        return;
      }
      if !outputEncodable {
        SetInfoText(Incompatible, true);
      } else {
        SetInfoText("", false);
      }
    }

    /** readTextWithEncoding; `thrown` reports the escaping NullPointerException. */
    method ReadTextWithEncoding(decodeOk: bool, outputEncodable: bool) returns (thrown: bool)
      modifies this`info, this`isShowingError, this`saveEnabled
      ensures (State(), thrown) == ReadTextAsWritten(old(State()), decodeOk, outputEncodable)
    {
      thrown := false;
      if file.None? {
        return;
      }
      if fileBytes.None? {
        thrown := true;
        return;
      }
      var decodeIsOk := true;
      if decodeOk {
        SetInfoText("", false);
        OutEncodingListValueChanged(outputEncodable);
      } else {
        decodeIsOk := false;
        SetInfoText(NotValid, true);
      }
      saveEnabled := decodeIsOk;
    }

    /**
     * setFile followed by its inEncodingListValueChanged call; `contents` is
     * the outcome of reading the file, `decodeOk` that of decoding it with the
     * charset then selected in the input list.
     */
    method SetFile(f: Option<File>, cs: Option<string>, contents: Option<seq<bv8>>, types: seq<CodeType>,
                   decodeOk: bool, outputEncodable: bool) returns (thrown: bool)
      modifies this`file, this`fileBytes, this`inSelection, this`outSelection
      modifies this`info, this`isShowingError, this`saveEnabled, this`title
      ensures (State(), thrown) ==
        SetFileAsWritten(old(State()), f, cs, contents, types, inList, outList, decodeOk, outputEncodable)
    {
      file := f;
      var windowTitle := ActionName;
      SetInfoText("", false);
      if f.Some? {
        if contents.Some? {
          fileBytes := contents;
          windowTitle := windowTitle + " — " + f.value.name;
          var charset: string;
          if cs.Some? {
            charset := cs.value;
          } else {
            charset := Utf8;
            var ct := GuessCodeType(f, types);
            if ct.Some? {
              charset := ct.value.encoding;
            }
          }
          inSelection := SelectValue(inList, charset, inSelection);
          outSelection := SelectValue(outList, charset, outSelection);
        } else {
          SetInfoText(UnableToRead, true);
          fileBytes := None;
        }
      } else {
        SetInfoText("", true);
      }
      title := windowTitle;
      thrown := ReadTextWithEncoding(decodeOk, outputEncodable);
    }
  }
}
