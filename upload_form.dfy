/** The CSV upload form of the web client (`web/src/components/UploadForm.jsx`):
    a file is picked from a dialog or dropped on the form, checked for its
    name, size and emptiness, and then sent to the server while the form is
    busy. The network request is the `outcome` parameter of `Submit`. */
module UploadForm {
  import opened Wrappers
  import opened Text

  /** A file chosen by the user: its name and its size in bytes. */
  datatype File = File(name: string, size: nat)

  /** The largest accepted size, ten mebibytes. */
  const MaxSize: nat := 10 * 1024 * 1024

  const NoFileMessage: string := "❌" + " Please select a CSV file to upload"
  const InvalidTypeMessage: string := "❌" + " Invalid file type. Please upload a CSV file."
  const TooLargeMessage: string := "❌" + " File too large. Please upload a file smaller than 10MB."
  const EmptyFileMessage: string := "❌" + " File is empty. Please select a valid CSV file."
  const UploadingMessage: string := "🔄 Uploading and analyzing data..."
  const UploadedMessage: string := "✅" + " Upload successful! Analysis complete."
  const SelectedMessage: string := "✅" + " Valid CSV file selected"
  const NetworkErrorText: string := "Upload failed (network error)"

  /** The three checks, in the order the form makes them: the name must end
      in `.csv` (case-sensitive), the size must not exceed ten mebibytes and
      must not be zero. The first failing check names the message. */
  function Rejection(f: File): (r: Option<string>)
    ensures r == None <==> EndsWith(f.name, ".csv") && 0 < f.size <= MaxSize
    ensures !EndsWith(f.name, ".csv") ==> r == Some(InvalidTypeMessage)
    ensures EndsWith(f.name, ".csv") && f.size > MaxSize ==> r == Some(TooLargeMessage)
    ensures r.Some? ==> r.value in {InvalidTypeMessage, TooLargeMessage, EmptyFileMessage}
  {
    if !EndsWith(f.name, ".csv") then Some(InvalidTypeMessage)
    else if f.size > MaxSize then Some(TooLargeMessage)
    else if f.size == 0 then Some(EmptyFileMessage)
    else None
  }

  /** The size test is strict: exactly ten mebibytes passes, one byte more
      does not, and an empty `.csv` file is refused as empty. */
  lemma SizeBoundary(name: string)
    requires EndsWith(name, ".csv")
    ensures Rejection(File(name, MaxSize)) == None
    ensures Rejection(File(name, MaxSize + 1)) == Some(TooLargeMessage)
    ensures Rejection(File(name, 0)) == Some(EmptyFileMessage)
  {
  }

  /** The style of the message box. */
  datatype Style = Error | Success | Info

  /** A one-character text occurs only where that character is. */
  lemma CharContained(s: string, c: char)
    ensures Contains(s, [c]) <==> c in s
  {
    ContainsIff(s, [c]);
    if c in s {
      var k :| 0 <= k < |s| && s[k] == c;
      assert OccursAt(s, [c], k);
    }
    if Contains(s, [c]) {
      var k :| OccursAt(s, [c], k);
      assert s[k..k + 1][0] == s[k];
    }
  }

  /** An error when the text holds the cross mark, otherwise a success when it
      holds the check mark, otherwise information. */
  function StyleOf(message: string): (r: Style)
    ensures r == Error <==> Contains(message, "❌")
    ensures r == Success <==> !Contains(message, "❌") && Contains(message, "✅")
    ensures r == Info <==> !Contains(message, "❌") && !Contains(message, "✅")
  {
    CharContained(message, '❌');
    CharContained(message, '✅');
    if '❌' in message then Error
    else if '✅' in message then Success
    else Info
  }

  /** A text that starts with a mark contains it. */
  lemma StartsWithMark(s: string, c: char)
    requires |s| > 0 && s[0] == c
    ensures Contains(s, [c])
  {
    CharContained(s, c);
  }

  /** The message after an upload failure: the server's error and details
      when it sent an error, otherwise the exception's text, otherwise a
      network-error text; an empty text counts as missing. */
  function FailureMessage(serverError: string, details: string, exceptionText: string): (r: string)
    ensures |r| > 2 && r[..2] == "❌ "
    ensures serverError != "" ==> Contains(r, serverError)
    ensures serverError == "" && exceptionText != "" ==> r == "❌ " + exceptionText
  {
    var r := if serverError != "" then
      (if details != "" then "❌ " + serverError + ": " + details else "❌ " + serverError)
    else "❌ " + (if exceptionText != "" then exceptionText else NetworkErrorText);
    assert serverError != "" ==> Contains(r, serverError) by {
      if serverError != "" {
        ContainsIff(r, serverError);
        assert OccursAt(r, serverError, 2);
      }
    }
    r
  }

  /** Every error message of the form, and every failure report, is shown
      as an error. */
  lemma ErrorMessagesStyle(serverError: string, details: string, exceptionText: string)
    ensures StyleOf(NoFileMessage) == Error && StyleOf(InvalidTypeMessage) == Error
    ensures StyleOf(TooLargeMessage) == Error && StyleOf(EmptyFileMessage) == Error
    ensures StyleOf(FailureMessage(serverError, details, exceptionText)) == Error
  {
    StartsWithMark(NoFileMessage, '❌');
    StartsWithMark(InvalidTypeMessage, '❌');
    StartsWithMark(TooLargeMessage, '❌');
    StartsWithMark(EmptyFileMessage, '❌');
    StartsWithMark(FailureMessage(serverError, details, exceptionText), '❌');
  }

  /** The two confirmations are shown as successes. */
  lemma ConfirmationsStyle()
    ensures StyleOf(UploadedMessage) == Success && StyleOf(SelectedMessage) == Success
  {
    assert '❌' !in UploadedMessage && '✅' in UploadedMessage;
    assert '❌' !in SelectedMessage && '✅' in SelectedMessage;
  }

  /** The progress text is shown as information. */
  lemma ProgressStyle()
    ensures StyleOf(UploadingMessage) == Info
  {
    assert '❌' !in UploadingMessage && '✅' !in UploadingMessage;
  }

  /** What the upload request came back with. */
  datatype Outcome =
    | Uploaded
    | Failed(serverError: string, details: string, exceptionText: string)

  /** The form's state: the selected file, the message box, the busy flag,
      the progress bar and the drag highlight. */
  class Form {
    var file: Option<File>
    var message: string
    var busy: bool
    var progress: nat
    var dragOver: bool

    /** Only a file that passed the checks is ever selected. */
    ghost predicate Valid()
      reads this
    {
      file.Some? ==> Rejection(file.value) == None
    }

    constructor ()
      ensures Valid()
      ensures file == None && message == "" && !busy && progress == 0 && !dragOver
    {
      file, message := None, "";
      busy, progress, dragOver := false, 0, false;
    }

    /** The submit button is disabled while busy or with no file. */
    function SubmitDisabled(): (r: bool)
      reads this
      ensures !r <==> !busy && file.Some?
    {
      busy || file.None?
    }

    /** `submit`: with no file the form asks for one; a file that fails a
        check is dropped with that check's message; otherwise the form is
        busy during the upload and afterwards, whatever the outcome, it is
        idle with an empty progress bar and reports the outcome. `notified`
        is what the form passed to `onMessage`, in order, and `uploaded`
        whether `onUploaded` was called. */
    method Submit(outcome: Outcome) returns (notified: seq<string>, uploaded: bool)
      modifies this
      ensures dragOver == old(dragOver)
      ensures old(file).None? ==>
        && message == NoFileMessage && notified == [NoFileMessage] && !uploaded
        && file == None && busy == old(busy) && progress == old(progress)
      ensures old(file).Some? && Rejection(old(file).value).Some? ==>
        && message == Rejection(old(file).value).value && notified == [message] && !uploaded
        && file == None && busy == old(busy) && progress == old(progress)
      ensures old(file).Some? && Rejection(old(file).value).None? ==>
        && file == old(file) && !busy && progress == 0
        && message == (if outcome.Uploaded? then UploadedMessage
                       else FailureMessage(outcome.serverError, outcome.details, outcome.exceptionText))
        && notified == [UploadingMessage, message]
        && uploaded == outcome.Uploaded?
      ensures old(Valid()) && old(file).Some? ==> notified[0] == UploadingMessage && !SubmitDisabled()
      ensures Valid()
    {
      message := "";
      uploaded := false;
      if file.None? {
        message := NoFileMessage;
        notified := [message];
        return;
      }
      var rejection := Rejection(file.value);
      if rejection.Some? {
        message := rejection.value;
        notified := [message];
        file := None;
        return;
      }
      busy := true;
      message := UploadingMessage;
      notified := [message];
      match outcome {
        case Uploaded =>
          message := UploadedMessage;
          uploaded := true;
        case Failed(serverError, details, exceptionText) =>
          message := FailureMessage(serverError, details, exceptionText);
      }
      notified := notified + [message];
      busy := false;
      progress := 0;
    }

    /** `handleFileChange`: nothing happens when the dialog returns no file;
        a file failing a check clears the selection with that check's
        message; a good file is selected. */
    method HandleFileChange(selected: Option<File>) returns (notified: seq<string>)
      modifies this
      ensures busy == old(busy) && progress == old(progress) && dragOver == old(dragOver)
      ensures selected.None? ==> file == old(file) && message == old(message) && notified == []
      ensures selected.Some? && Rejection(selected.value).Some? ==>
        file == None && message == Rejection(selected.value).value && notified == [message]
      ensures selected.Some? && Rejection(selected.value).None? ==>
        file == selected && message == SelectedMessage && notified == [message]
      ensures old(Valid()) ==> Valid()
    {
      notified := [];
      if selected.Some? {
        var f := selected.value;
        message := "";
        var rejection := Rejection(f);
        if rejection.Some? {
          message := rejection.value;
          notified := [message];
          file := None;
          return;
        }
        file := Some(f);
        message := SelectedMessage;
        notified := [message];
      }
    }

    /** `handleDrop`: only the first dropped file is looked at; a failing
        file leaves the previous selection in place with that check's
        message; a good file is selected. The drag highlight goes off. */
    method HandleDrop(files: seq<File>) returns (notified: seq<string>)
      modifies this
      ensures !dragOver && busy == old(busy) && progress == old(progress)
      ensures files == [] ==> file == old(file) && message == old(message) && notified == []
      ensures files != [] && Rejection(files[0]).Some? ==>
        file == old(file) && message == Rejection(files[0]).value && notified == [message]
      ensures files != [] && Rejection(files[0]).None? ==>
        file == Some(files[0]) && message == SelectedMessage && notified == [message]
      ensures old(Valid()) ==> Valid()
    {
      dragOver := false;
      notified := [];
      if |files| > 0 {
        var dropped := files[0];
        message := "";
        var rejection := Rejection(dropped);
        if rejection.Some? {
          message := rejection.value;
          notified := [message];
          return;
        }
        file := Some(dropped);
        message := SelectedMessage;
        notified := [message];
      }
    }

    /** `handleDragOver`: the drag highlight goes on. */
    method HandleDragOver()
      modifies this
      ensures dragOver
      ensures file == old(file) && message == old(message) && busy == old(busy) && progress == old(progress)
    {
      dragOver := true;
    }

    /** `handleDragLeave`: the drag highlight goes off. */
    method HandleDragLeave()
      modifies this
      ensures !dragOver
      ensures file == old(file) && message == old(message) && busy == old(busy) && progress == old(progress)
    {
      dragOver := false;
    }
  }

  /** A good file, picked or dropped, enables the button of an idle form,
      and submitting it starts an upload. */
  method SelectThenSubmit(f: File, outcome: Outcome) returns (notified: seq<string>, uploaded: bool)
    requires Rejection(f) == None
    ensures notified == [UploadingMessage, if outcome.Uploaded? then UploadedMessage
                         else FailureMessage(outcome.serverError, outcome.details, outcome.exceptionText)]
    ensures uploaded == outcome.Uploaded?
  {
    var form := new Form();
    var picked := form.HandleFileChange(Some(f));
    assert !form.SubmitDisabled();
    notified, uploaded := form.Submit(outcome);
  }
}
