/** The object-removal page: file choice and the submit-time validation. */
module RemoveObject {
  import opened Base
  import opened JsString

  /** A file picked in the browser; its bytes are not looked at here. */
  datatype ImageFile = ImageFile(name: string, size: nat)

  datatype ObjectForm = ObjectForm(
    selectedFile: Option<ImageFile>,
    objectName: string,
    content: string,
    loading: bool)

  const MissingInputMessage: string := "Please upload an image and enter the object name to remove."
  const SingleObjectMessage: string := "Please enter only a single object name."

  /** `handleFileChange`: the first chosen file (None when the picker was
      cancelled) replaces the selection and any previous result is cleared. */
  function ChooseFile(f: ObjectForm, file: Option<ImageFile>): (g: ObjectForm)
    ensures g.selectedFile == file && g.content == []
    ensures g.objectName == f.objectName && g.loading == f.loading
  {
    f.(selectedFile := file, content := [])
  }

  /** The multipart body posted to `remove-image-object`. */
  datatype Payload = Payload(image: ImageFile, object: string)

  datatype Submission =
    | Rejected(message: string, form: ObjectForm)
    | Posted(payload: Payload, form: ObjectForm)

  /** `onSubmitHandler` up to the request. A missing file or a name that is
      blank after trimming is refused first, leaving the form as it is; then
      a name with a U+0020 space anywhere (`split(" ").length > 1`) is refused
      with `loading` reset; otherwise the file and the untrimmed name are
      posted while `loading` is set. */
  function Submit(f: ObjectForm): (r: Submission)
    ensures r.Rejected? <==> f.selectedFile.None? || AllWhiteSpace(f.objectName) || ' ' in f.objectName
    ensures r.Rejected? && (f.selectedFile.None? || AllWhiteSpace(f.objectName)) ==>
              r.message == MissingInputMessage && r.form == f
    ensures r.Rejected? && f.selectedFile.Some? && !AllWhiteSpace(f.objectName) ==>
              r.message == SingleObjectMessage && r.form == f.(loading := false)
    ensures r.Posted? ==>
              r.payload == Payload(f.selectedFile.value, f.objectName) && r.form == f.(loading := true)
  {
    SeveralSegmentsIff(f.objectName, ' ');
    if f.selectedFile.None? || IsBlank(f.objectName) then Rejected(MissingInputMessage, f)
    else if |Split(f.objectName, ' ')| > 1 then Rejected(SingleObjectMessage, f.(loading := false))
    else Posted(Payload(f.selectedFile.value, f.objectName), f.(loading := true))
  }

  /** Concrete cases of the single-object rule: a space between words or at
      the end refuses the name, a tab does not. */
  lemma SpaceSeparatedRefused(f: ObjectForm)
    requires f.selectedFile.Some? && (f.objectName == "watch chair" || f.objectName == "watch ")
    ensures Submit(f) == Rejected(SingleObjectMessage, f.(loading := false))
  {
    assert f.objectName[5] == ' ';
    assert !IsWhiteSpace(f.objectName[0]);
  }

  lemma TabSeparatedPosted(f: ObjectForm)
    requires f.selectedFile.Some? && f.objectName == "watch\tchair"
    ensures Submit(f).Posted?
  {
    var name := f.objectName;
    assert !IsWhiteSpace(name[0]);
    assert forall i :: 0 <= i < |name| ==> name[i] != ' ';
  }

  /** The answer of `remove-image-object`: a JSON body, or a thrown request. */
  datatype Reply =
    | Answered(success: bool, content: string, message: string)
    | Threw(message: string)

  /** The handler once the reply is in: the result is shown only on
      `data.success`, and `loading` is cleared in every case. */
  function Receive(f: ObjectForm, reply: Reply): (g: ObjectForm)
    ensures !g.loading
    ensures g.selectedFile == f.selectedFile && g.objectName == f.objectName
    ensures reply.Answered? && reply.success ==> g.content == reply.content
    ensures !(reply.Answered? && reply.success) ==> g.content == f.content
  {
    if reply.Answered? && reply.success then f.(content := reply.content, loading := false)
    else f.(loading := false)
  }
}
