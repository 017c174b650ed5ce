/**
 * The trainer's module form: field validation, and the form / error /
 * edit-target state that change, edit, submit and cancel update.
 */
module ManageModules {
  import opened Wrappers
  import opened Text

  /** The keys of the error dictionary. */
  datatype Field = Title | Content | FileField | Submit

  /** The chosen upload: its MIME type and its size in bytes. */
  datatype FileInfo = FileInfo(mimeType: string, size: int)

  datatype Form = Form(title: string, content: string, file: Option<FileInfo>)

  const EmptyForm: Form := Form("", "", None)

  const MaxFileSize: int := 50 * 1024 * 1024

  const AllowedTypes: seq<string> := ["application/pdf", "video/mp4", "video/webm", "video/ogg"]

  const TitleRequired: string := "Title is required."
  const TitleTooLong: string := "Title must be under 100 characters."
  const ContentRequired: string := "Content is required."
  const ContentTooShort: string := "Content must be at least 10 characters."
  const FileTypeError: string := "File must be PDF or MP4/WebM/OGG video."
  const FileSizeError: string := "File size must be under 50MB."
  const SubmitFailed: string := "Failed to save module. Please try again."

  /** The title rule: not blank after trimming, at most 100 UTF-16 code units untrimmed. */
  function TitleError(title: string): Option<string>
  {
    if Trim(title) == [] then Some(TitleRequired)
    else if Utf16Length(title) > 100 then Some(TitleTooLong)
    else None
  }

  /** The content rule: not blank after trimming, at least 10 UTF-16 code units untrimmed. */
  function ContentError(content: string): Option<string>
  {
    if Trim(content) == [] then Some(ContentRequired)
    else if Utf16Length(content) < 10 then Some(ContentTooShort)
    else None
  }

  /** The file rule: no file is fine; a file must have an allowed type (checked first), then at most 50 MiB. */
  function FileError(file: Option<FileInfo>): Option<string>
  {
    match file
    case None => None
    case Some(f) =>
      if f.mimeType !in AllowedTypes then Some(FileTypeError)
      else if f.size > MaxFileSize then Some(FileSizeError)
      else None
  }

  /** The dictionary with key `k` set to the error `e` when there is one. */
  function Put(errs: map<Field, string>, k: Field, e: Option<string>): map<Field, string>
  {
    if e.Some? then errs[k := e.value] else errs
  }

  /**
   * `validateForm`'s error dictionary: a key per failing field, never the
   * submit key; the form is valid exactly when the dictionary is empty.
   */
  function ValidateForm(form: Form): (errs: map<Field, string>)
    ensures Submit !in errs
    ensures Title in errs <==> AllSpace(form.title) || Utf16Length(form.title) > 100
    ensures Content in errs <==> AllSpace(form.content) || Utf16Length(form.content) < 10
    ensures FileField in errs <==>
              form.file.Some? && (form.file.value.mimeType !in AllowedTypes || form.file.value.size > MaxFileSize)
    ensures Title in errs ==> errs[Title] == (if AllSpace(form.title) then TitleRequired else TitleTooLong)
    ensures Content in errs ==> errs[Content] == (if AllSpace(form.content) then ContentRequired else ContentTooShort)
    ensures FileField in errs ==>
              errs[FileField] == (if form.file.value.mimeType !in AllowedTypes then FileTypeError else FileSizeError)
    ensures errs == map[] <==> TitleError(form.title).None? && ContentError(form.content).None? &&
                               FileError(form.file).None?
  {
    TrimEmpty(form.title);
    TrimEmpty(form.content);
    var errs := Put(map[], Title, TitleError(form.title));
    var errs := Put(errs, Content, ContentError(form.content));
    var errs := Put(errs, FileField, FileError(form.file));
    assert Title in errs ==> errs != map[];
    assert Content in errs ==> errs != map[];
    assert FileField in errs ==> errs != map[];
    errs
  }

  /** A module as the list shows it. */
  datatype ModuleRecord = ModuleRecord(id: int, name: string, description: Option<string>)

  /** The multipart fields sent: `CourseId` only when creating. */
  datatype FormFields = FormFields(title: string, content: string, file: Option<FileInfo>, courseId: Option<string>)

  /** A create (POST) or an update (PUT) of module `id`. */
  datatype Request = Create(fields: FormFields) | Update(id: int, fields: FormFields)

  /** `if (editId)`: an id that is present and not 0. */
  predicate Editing(editId: Option<int>)
  {
    editId.Some? && editId.value != 0
  }

  class ModuleForm {
    const courseId: string
    var form: Form
    var errors: map<Field, string>
    var editId: Option<int>

    constructor(courseId: string)
      ensures this.courseId == courseId && form == EmptyForm && errors == map[] && editId.None?
    {
      this.courseId := courseId;
      form := EmptyForm;
      errors := map[];
      editId := None;
    }

    /** `handleChange` on the title input: that field set, that field's error cleared. */
    method ChangeTitle(value: string)
      modifies this`form, this`errors
      ensures form == old(form).(title := value)
      ensures errors == old(errors)[Title := ""]
    {
      form := form.(title := value);
      errors := errors[Title := ""];
    }

    /** `handleChange` on the content input. */
    method ChangeContent(value: string)
      modifies this`form, this`errors
      ensures form == old(form).(content := value)
      ensures errors == old(errors)[Content := ""]
    {
      form := form.(content := value);
      errors := errors[Content := ""];
    }

    /** `handleChange` on the file input: the first chosen file, if any. */
    method ChangeFile(first: Option<FileInfo>)
      modifies this`form, this`errors
      ensures form == old(form).(file := first)
      ensures errors == old(errors)[FileField := ""]
    {
      form := form.(file := first);
      errors := errors[FileField := ""];
    }

    /** `handleEdit`: edit module `m`, its name and description in the form, no file, no errors. */
    method HandleEdit(m: ModuleRecord)
      modifies this`form, this`errors, this`editId
      ensures editId == Some(m.id)
      ensures form == Form(m.name, m.description.GetOr(""), None)
      ensures errors == map[]
    {
      editId := Some(m.id);
      form := Form(m.name, m.description.GetOr(""), None);
      errors := map[];
    }

    /** The Cancel button: back to creating, with an empty form and no errors. */
    method Cancel()
      modifies this`form, this`errors, this`editId
      ensures editId.None? && form == EmptyForm && errors == map[]
    {
      editId := None;
      form := EmptyForm;
      errors := map[];
    }

    /**
     * `handleSubmit` with the outcome `ok` of the request: an invalid form
     * shows its errors and sends nothing; a valid one sends an update when
     * editing and a create (with the course id) otherwise; success resets
     * the form, failure leaves only the submit error.
     */
    method HandleSubmit(ok: bool) returns (request: Option<Request>)
      modifies this`form, this`errors, this`editId
      ensures request.None? <==> ValidateForm(old(form)) != map[]
      ensures request.None? ==>
        errors == ValidateForm(old(form)) && form == old(form) && editId == old(editId)
      ensures request.Some? && Editing(old(editId)) ==>
        request.value == Update(old(editId).value, FormFields(old(form).title, old(form).content, old(form).file, None))
      ensures request.Some? && !Editing(old(editId)) ==>
        request.value == Create(FormFields(old(form).title, old(form).content, old(form).file, Some(courseId)))
      ensures request.Some? && ok ==> form == EmptyForm && editId.None? && errors == map[]
      ensures request.Some? && !ok ==>
        form == old(form) && editId == old(editId) && errors == map[Submit := SubmitFailed]
    {
      var errs := ValidateForm(form);
      errors := errs;
      if errs != map[] {
        return None;
      }
      var editing := Editing(editId);
      var fields := FormFields(form.title, form.content, form.file, if editing then None else Some(courseId));
      request := Some(if editing then Update(editId.value, fields) else Create(fields));
      if ok {
        form := EmptyForm;
        editId := None;
      } else {
        errors := map[Submit := SubmitFailed];
      }
    }
  }

  /** A title of exactly 100 code units passes; one more character of any kind makes it too long. */
  lemma TitleLengthBoundary(title: string)
    requires Utf16Length(title) == 100 && !AllSpace(title)
    ensures TitleError(title).None?
    ensures forall c :: TitleError(title + [c]) == Some(TitleTooLong)
  {
    TrimEmpty(title);
    forall c ensures TitleError(title + [c]) == Some(TitleTooLong) {
      var t := title + [c];
      TrimEmpty(t);
      Utf16LengthAppend(title, [c]);
      assert !AllSpace(t) by {
        var i :| 0 <= i < |title| && !IsSpace(title[i]);
        assert t[i] == title[i];
      }
    }
  }
}
