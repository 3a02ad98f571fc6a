/** The add-item dialog: pick an image, let the classifier fill in the fields, submit. */
module AddItemModal {
  import opened Wrappers
  import opened Strings
  import opened Types
  import GeminiService

  const FillAllFieldsMessage: string := "Please fill all fields and upload an image."
  const UnknownErrorMessage: string := "An unknown error occurred."

  /** The chosen file; only its MIME type is used. */
  datatype ImageFile = ImageFile(mimeType: string)

  /** `url.split(',')[1]` when that is a non-empty string: the base64 payload of a data URL. */
  function ClassifiableData(url: string): (data: Option<string>)
    ensures data.Some? ==> data.value != "" && ',' !in data.value
    ensures data.None? <==> ',' !in url || SecondField(url, ',') == Some("")
  {
    match SecondField(url, ',')
    case None => None
    case Some(field) => if field == "" then None else Some(field)
  }

  /** The payload of a well-formed data URL is what gets classified. */
  lemma DataUrlPayloadIsClassified(header: string, payload: string)
    requires ',' !in header && ',' !in payload && payload != ""
    ensures ClassifiableData(header + "," + payload) == Some(payload)
  {
    assert header + "," + payload == header + [','] + payload + [];
    SecondFieldOf(header, payload, [], ',');
  }

  /** The submit guard: the draft handed on when the preview, name, category and
      sub-category are all non-empty. Every category, `Unknown` included, passes. */
  function SubmitDraft(previewUrl: Option<string>, name: string, category: Category, subCategory: string): (draft: Option<ItemDraft>)
    ensures draft.Some? <==> previewUrl.Some? && previewUrl.value != "" && name != "" && subCategory != ""
    ensures draft.Some? ==> draft.value.imageUrl == previewUrl.value && draft.value.name == name
                            && draft.value.category == category && draft.value.subCategory == subCategory
  {
    if previewUrl.Some? && previewUrl.value != "" && name != "" && CategoryValue(category) != "" && subCategory != ""
    then Some(ItemDraft(name, category, subCategory, previewUrl.value))
    else None
  }

  class AddItemForm {
    var imageFile: Option<ImageFile>
    var previewUrl: Option<string>
    var name: string
    var category: Category
    var subCategory: string
    var isLoading: bool
    var error: Option<string>

    /** Every field holds its initial value. */
    predicate Pristine()
      reads this
    {
      imageFile == None && previewUrl == None && name == "" && category == Unknown
      && subCategory == "" && !isLoading && error == None
    }

    constructor ()
      ensures Pristine()
    {
      imageFile := None;
      previewUrl := None;
      name := "";
      category := Unknown;
      subCategory := "";
      isLoading := false;
      error := None;
    }

    /** `resetForm`. */
    method ResetForm()
      modifies this
      ensures Pristine()
    {
      imageFile := None;
      previewUrl := None;
      name := "";
      category := Unknown;
      subCategory := "";
      isLoading := false;
      error := None;
    }

    /** `handleClose`: the form is reset before the dialog is closed. */
    method HandleClose()
      modifies this
      ensures Pristine()
    {
      ResetForm();
    }

    /** `handleFileChange` with the file read as the data URL `url`. Returns whether the
        classifier was asked. */
    method HandleFileChange(file: Option<ImageFile>, url: string,
                            classify: GeminiService.GenerativePart -> Option<GeminiService.RawClassification>)
      returns (classified: bool)
      modifies this
      ensures file.None? ==> !classified && imageFile == old(imageFile) && previewUrl == old(previewUrl)
                             && name == old(name) && category == old(category) && subCategory == old(subCategory)
                             && isLoading == old(isLoading) && error == old(error)
      ensures file.Some? ==> imageFile == file && previewUrl == Some(url)
      ensures classified <==> file.Some? && ClassifiableData(url).Some?
      ensures file.Some? && !classified ==>
                error == None && name == old(name) && category == old(category)
                && subCategory == old(subCategory) && isLoading == old(isLoading)
      ensures classified ==>
        var r := GeminiService.CategorizeClothingItem(ClassifiableData(url).value, file.value.mimeType, classify);
        && !isLoading
        && (r.Success? ==> error == None && name == r.value.name && category == r.value.category
                           && subCategory == r.value.subCategory)
        && (r.Failure? ==> error == Some(GeminiService.AnalyzeFailedMessage) && name == old(name)
                           && category == old(category) && subCategory == old(subCategory))
    {
      if file.None? {
        return false;
      }
      error := None;
      imageFile := file;
      previewUrl := Some(url);
      var data := ClassifiableData(url);
      if data.None? {
        return false;
      }
      isLoading := true;
      var r := GeminiService.CategorizeClothingItem(data.value, file.value.mimeType, classify);
      if r.Success? {
        name := r.value.name;
        category := r.value.category;
        subCategory := r.value.subCategory;
      } else {
        assert |r.error| > 0;
        error := Some(MessageOr(r.error, UnknownErrorMessage));
      }
      isLoading := false;
      classified := true;
    }

    /** `handleSubmit`: hand the draft on and reset, or report the missing fields. */
    method HandleSubmit() returns (added: Option<ItemDraft>)
      modifies this
      ensures added == SubmitDraft(old(previewUrl), old(name), old(category), old(subCategory))
      ensures added.Some? ==> Pristine()
      ensures added.None? ==>
                error == Some(FillAllFieldsMessage) && imageFile == old(imageFile) && previewUrl == old(previewUrl)
                && name == old(name) && category == old(category) && subCategory == old(subCategory)
                && isLoading == old(isLoading)
    {
      added := SubmitDraft(previewUrl, name, category, subCategory);
      if added.Some? {
        HandleClose();
      } else {
        error := Some(FillAllFieldsMessage);
      }
    }
  }
}
