/**
 * File selection in frontend/src/components/ProfilePhotoModal.jsx: a picked
 * file is checked for size and then for type before it becomes the
 * selection, and closing the modal forgets everything.  The object URL
 * the preview is made from is a parameter.
 */
module ProfilePhoto {
  import opened Js

  /** The upload limit: five mebibytes. */
  const MaxBytes := 5 * 1024 * 1024

  const TooLarge := "File size must be less than 5MB"
  const NotAnImage := "Please select an image file"

  /** The two properties of a `File` the checks read. */
  datatype File = File(size: int, mimeType: string)

  /** The modal's state: the chosen file, its preview URL, and the error shown. */
  datatype Picker = Picker(selected: Option<File>, preview: Option<string>, error: Option<string>)

  const Closed := Picker(None, None, None)

  /** `type.startsWith('image/')`. */
  predicate IsImage(mimeType: string) {
    |mimeType| >= 6 && mimeType[..6] == "image/"
  }

  /**
   * `handleFileSelect`: an empty pick changes nothing; a file over the limit
   * is reported before its type is looked at; a rejected file leaves the
   * previous selection and preview in place; an accepted file becomes the
   * selection and clears the error.
   */
  function SelectFile(p: Picker, file: Option<File>, objectUrl: File -> string): (r: Picker)
    ensures file.None? ==> r == p
    ensures file.Some? && file.value.size > MaxBytes ==> r == p.(error := Some(TooLarge))
    ensures file.Some? && file.value.size <= MaxBytes && !IsImage(file.value.mimeType) ==> r == p.(error := Some(NotAnImage))
    ensures file.Some? && file.value.size <= MaxBytes && IsImage(file.value.mimeType) ==>
              r == Picker(file, Some(objectUrl(file.value)), None)
    ensures r.selected != p.selected ==> r.selected == file && r.error.None?
  {
    match file
    case None => p
    case Some(f) =>
      if f.size > MaxBytes then p.(error := Some(TooLarge))
      else if !IsImage(f.mimeType) then p.(error := Some(NotAnImage))
      else Picker(Some(f), Some(objectUrl(f)), None)
  }

  /** Whatever is selected is within the limit and is an image, provided the starting selection was. */
  predicate SelectionAcceptable(p: Picker) {
    p.selected.Some? ==> p.selected.value.size <= MaxBytes && IsImage(p.selected.value.mimeType)
  }

  lemma SelectKeepsAcceptable(p: Picker, file: Option<File>, objectUrl: File -> string)
    requires SelectionAcceptable(p)
    ensures SelectionAcceptable(SelectFile(p, file, objectUrl))
  {
  }

  /** A file too large and of the wrong type gets the size message: size is checked first. */
  lemma SizeCheckedFirst(p: Picker, f: File, objectUrl: File -> string)
    requires f.size > MaxBytes && !IsImage(f.mimeType)
    ensures SelectFile(p, Some(f), objectUrl).error == Some(TooLarge)
  {
  }

  /** `handleClose`: selection, preview and error all cleared. */
  function Close(p: Picker): (r: Picker)
    ensures r.selected.None? && r.preview.None? && r.error.None?
  {
    Closed
  }

  /** Closing after any sequence of picks leaves the same state as never having picked at all. */
  lemma CloseForgetsPicks(p: Picker, file: Option<File>, objectUrl: File -> string)
    ensures Close(SelectFile(p, file, objectUrl)) == Close(Closed) == Closed
  {
  }
}
