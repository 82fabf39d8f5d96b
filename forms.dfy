/**
 * `FormData` as the add-product and add-user handlers use it
 * (admin.js:267-274, 358-365): an ordered list of named entries where
 * `get(name)` returns the first entry with that name, or null, and
 * `append(name, value)` adds an entry at the end.
 */
module Forms {
  import opened Wrappers

  /** A form control's value: text, or the File object of a file input. */
  datatype FieldValue = Text(text: string) | File(fileName: string)

  datatype Entry = Entry(name: string, value: FieldValue)

  type FormData = seq<Entry>

  /** The position of the first entry called `name`, or |fd| when there is none. */
  function FirstIndex(fd: FormData, name: string): (i: nat)
    ensures i <= |fd|
    ensures forall j :: 0 <= j < i ==> fd[j].name != name
    ensures i < |fd| ==> fd[i].name == name
  {
    if fd == [] then 0
    else if fd[0].name == name then 0
    else 1 + FirstIndex(fd[1..], name)
  }

  /** `formData.get(name)`: None stands for null. */
  function Get(fd: FormData, name: string): (v: Option<FieldValue>)
    ensures v.None? <==> forall j :: 0 <= j < |fd| ==> fd[j].name != name
    ensures v.Some? ==> Entry(name, v.value) in fd
  {
    var i := FirstIndex(fd, name);
    if i < |fd| then Some(fd[i].value) else None
  }

  /** `formData.append(name, value)` with a text value. */
  function Append(fd: FormData, name: string, value: string): (r: FormData)
    ensures |r| == |fd| + 1 && r[|fd|] == Entry(name, Text(value))
    ensures forall j :: 0 <= j < |fd| ==> r[j] == fd[j]
  {
    fd + [Entry(name, Text(value))]
  }

  /**
   * JavaScript truthiness of `formData.get(...)`: null and "" are falsy; a
   * File object is truthy even when no file was chosen.
   */
  predicate Truthy(v: Option<FieldValue>)
  {
    v.Some? && (v.value.Text? ==> v.value.text != "")
  }

  /** The fields addProduct requires. */
  const REQUIRED_PRODUCT_FIELDS: seq<string> := ["name", "category", "price", "image"]

  /** `!formData.get('name') || !formData.get('category') || !formData.get('price') || !formData.get('image')` */
  predicate MissingRequired(fd: FormData)
    ensures !MissingRequired(fd) ==> forall k :: k in REQUIRED_PRODUCT_FIELDS ==> Get(fd, k).Some?
  {
    !Truthy(Get(fd, "name")) || !Truthy(Get(fd, "category"))
      || !Truthy(Get(fd, "price")) || !Truthy(Get(fd, "image"))
  }

  /**
   * The check fails exactly when some required field is absent or holds the
   * empty text; a field holding a File never fails it.
   */
  lemma MissingRequiredIff(fd: FormData)
    ensures MissingRequired(fd) <==>
            exists k :: k in REQUIRED_PRODUCT_FIELDS && (Get(fd, k) == None || Get(fd, k) == Some(Text("")))
    ensures (forall k :: k in REQUIRED_PRODUCT_FIELDS ==> Get(fd, k).Some? && Get(fd, k).value.File?) ==>
            !MissingRequired(fd)
  {
    if MissingRequired(fd) {
      if !Truthy(Get(fd, "name")) {
        assert "name" in REQUIRED_PRODUCT_FIELDS;
      } else if !Truthy(Get(fd, "category")) {
        assert "category" in REQUIRED_PRODUCT_FIELDS;
      } else if !Truthy(Get(fd, "price")) {
        assert "price" in REQUIRED_PRODUCT_FIELDS;
      } else {
        assert "image" in REQUIRED_PRODUCT_FIELDS;
      }
    }
  }

  /** `get` finds the first entry with the name, and only such an entry. */
  lemma GetFindsFirst(fd: FormData, name: string, i: nat)
    requires i < |fd| && fd[i].name == name
    requires forall j :: 0 <= j < i ==> fd[j].name != name
    ensures Get(fd, name) == Some(fd[i].value)
  {
  }

  /**
   * Appending keeps every earlier answer of `get`: the new entry is seen
   * only for a name the form did not have yet.
   */
  lemma {:induction false} GetAfterAppend(fd: FormData, name: string, value: string, k: string)
    ensures Get(Append(fd, name, value), k) ==
            if Get(fd, k).Some? then Get(fd, k)
            else if k == name then Some(Text(value))
            else None
  {
    var i := FirstIndex(fd, k);
    var fd' := Append(fd, name, value);
    if i < |fd| {
      GetFindsFirst(fd', k, i);
    } else if k == name {
      GetFindsFirst(fd', k, |fd|);
    } else {
      assert forall j :: 0 <= j < |fd'| ==> fd'[j].name != k;
    }
  }
}
