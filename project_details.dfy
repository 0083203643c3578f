/** The editing logic of `ProjectDetailsPage`: when an edited field counts as
    changed, the change set shown after a save, the update payload sent, and
    the page's edit state. */
module ProjectDetails {
  import opened Wrappers
  import opened Text
  import opened Numbers

  /** A field value as the page holds it: the columns are strings or
      integers, either of them possibly `null`, and a field an edit never
      touched is `undefined`. */
  datatype JsValue = Undefined | Null | Str(s: string) | Num(n: int)

  /** A record or a partial edit of one: field name to value; a missing key
      reads as `undefined`. */
  type Fields = map<string, JsValue>

  /** A change shown after a save. */
  datatype Change = Change(before: JsValue, after: JsValue)

  const CountField := "unidades_disponibles"

  /** The fields the page lets the user edit, in the order it checks them. */
  const EditableFields: seq<string> := ["fase", "estado", "fecha_inicio", "fecha_entrega",
                                        "precio_promedio", "cuota_promedio", "ingresos_promedio", CountField]

  /** `record[field]`. */
  function Get(m: Fields, field: string): JsValue {
    if field in m then m[field] else Undefined
  }

  predicate IsNullish(v: JsValue) {
    v.Undefined? || v.Null?
  }

  /** `null`, `undefined` or the empty string: an emptied input. */
  predicate IsCleared(v: JsValue) {
    IsNullish(v) || v == Str("")
  }

  /** `/^\d{4}-\d{2}-\d{2}$/`. */
  predicate IsDateText(s: string) {
    && |s| == 10
    && IsDigit(s[0]) && IsDigit(s[1]) && IsDigit(s[2]) && IsDigit(s[3]) && s[4] == '-'
    && IsDigit(s[5]) && IsDigit(s[6]) && s[7] == '-' && IsDigit(s[8]) && IsDigit(s[9])
  }

  /** The first ten characters, or the whole string when it is shorter. */
  function DatePart(s: string): (d: string)
    ensures d <= s && |d| <= 10
  {
    if |s| >= 10 then s[..10] else s
  }

  /** `Number(v)` for a value that is neither `null` nor `undefined`; `None` is `NaN`. */
  function NumberValue(v: JsValue): Option<int>
    requires v.Str? || v.Num?
  {
    if v.Num? then Some(v.n) else NumberOf(v.s)
  }

  /** Both values are strings that start with a YYYY-MM-DD day. */
  predicate BothDates(before: JsValue, after: JsValue) {
    before.Str? && after.Str? && IsDateText(DatePart(before.s)) && IsDateText(DatePart(after.s))
  }

  /** `Number(before) !== Number(after)`; `NaN` differs from everything. */
  predicate NumbersDiffer(before: JsValue, after: JsValue)
    requires (before.Str? || before.Num?) && (after.Str? || after.Num?)
  {
    NumberValue(before).None? || NumberValue(after).None? || NumberValue(before) != NumberValue(after)
  }

  /** `String(before).trim() !== String(after).trim()`. */
  predicate TextsDiffer(before: string, after: string) {
    Trim(before) != Trim(after)
  }

  /** `compareValues`: whether the field counts as changed from `before` to `after`. */
  predicate CompareValues(before: JsValue, after: JsValue) {
    if IsNullish(before) then !IsCleared(after)
    else if IsCleared(after) then true
    else if BothDates(before, after) then DatePart(before.s) != DatePart(after.s)
    else if before.Num? || after.Num? then NumbersDiffer(before, after)
    else TextsDiffer(before.s, after.s)
  }

  /** A value compared with itself is unchanged, except the empty string,
      which counts as a change because saving turns it into `null`. */
  lemma UnchangedIffSame(v: JsValue)
    ensures CompareValues(v, v) <==> v == Str("")
  {
  }

  /** Two date strings compare by their day: a timestamp and the same day
      written as YYYY-MM-DD are no change. */
  lemma DatesCompareByDay(before: string, after: string)
    requires IsDateText(DatePart(before)) && IsDateText(DatePart(after))
    ensures CompareValues(Str(before), Str(after)) <==> before[..10] != after[..10]
  {
  }

  /** A number and its own decimal text are no change: 5 and "5" agree. */
  lemma NumberAgreesWithItsText(n: nat)
    ensures !CompareValues(Num(n), Str(NatToString(n)))
    ensures !CompareValues(Str(NatToString(n)), Num(n))
  {
    TextOfNumber(n);
    var number, text := Num(n), Str(NatToString(n));
    CompareFilledIn(number, text);
    CompareFilledIn(text, number);
  }

  /** The decimal text of a number is not an emptied input, and `Number`
      reads it back as that number. */
  lemma TextOfNumber(n: nat)
    ensures !IsCleared(Str(NatToString(n)))
    ensures NumberValue(Str(NatToString(n))) == Some(n as int)
  {
    DigitsValueOfNatToString(n);
  }

  /** Text fields ignore surrounding white space. */
  lemma TextIgnoresSurroundingSpace(before: string, after: string)
    requires Trim(after) == Trim(before) && after != ""
    requires !IsDateText(DatePart(before))
    ensures !CompareValues(Str(before), Str(after))
  {
    CompareFilledIn(Str(before), Str(after));
  }

  /** Past the emptied-input and date cases, the comparison is numeric when
      either side is a number and by trimmed text otherwise. */
  lemma CompareFilledIn(before: JsValue, after: JsValue)
    requires !IsNullish(before) && !IsCleared(after) && !BothDates(before, after)
    ensures before.Num? || after.Num? ==> (CompareValues(before, after) <==> NumbersDiffer(before, after))
    ensures before.Str? && after.Str? ==> (CompareValues(before, after) <==> TextsDiffer(before.s, after.s))
  {
  }

  /** The change set `detectChanges` builds: each editable field that counts
      as changed, with its old and new value. */
  function ChangesOf(original: Fields, edited: Fields): (changes: map<string, Change>)
    ensures forall f :: f in changes <==> f in EditableFields && CompareValues(Get(original, f), Get(edited, f))
    ensures forall f :: f in changes ==> changes[f] == Change(Get(original, f), Get(edited, f))
  {
    map f | f in EditableFields && CompareValues(Get(original, f), Get(edited, f)) :: Change(Get(original, f), Get(edited, f))
  }

  /** `detectChanges`: nothing without an original; otherwise the editable
      fields are visited in order and each changed one is recorded. */
  method DetectChanges(original: Option<Fields>, edited: Fields) returns (changes: map<string, Change>)
    ensures original.None? ==> changes == map[]
    ensures original.Some? ==> changes == ChangesOf(original.value, edited)
  {
    changes := map[];
    if original.None? {
      return;
    }
    var i := 0;
    while i < |EditableFields|
      invariant 0 <= i <= |EditableFields|
      invariant forall f :: f in changes <==> f in EditableFields[..i] && CompareValues(Get(original.value, f), Get(edited, f))
      invariant forall f :: f in changes ==> changes[f] == Change(Get(original.value, f), Get(edited, f))
    {
      var field := EditableFields[i];
      var before, after := Get(original.value, field), Get(edited, field);
      if CompareValues(before, after) {
        changes := changes[field := Change(before, after)];
      }
      PrefixGrows(EditableFields, i);
      i := i + 1;
    }
    PrefixGrows(EditableFields, i);
  }

  /** One more element of a sequence's prefix; the whole sequence at the end. */
  lemma PrefixGrows<T>(s: seq<T>, i: nat)
    requires i <= |s|
    ensures i < |s| ==> s[..i + 1] == s[..i] + [s[i]]
    ensures i == |s| ==> s[..i] == s
  {
  }

  /** An edit that leaves every editable field as it was, none of them empty
      text, has no changes. */
  lemma UntouchedEditHasNoChanges(original: Fields, edited: Fields)
    requires forall f :: f in EditableFields ==> Get(edited, f) == Get(original, f) && Get(original, f) != Str("")
    ensures ChangesOf(original, edited) == map[]
  {
    forall f | f in EditableFields ensures !CompareValues(Get(original, f), Get(edited, f)) {
      UnchangedIffSame(Get(original, f));
    }
  }

  /** What `handleSave` sends for a field the edit holds: the empty string as
      `null` for every editable field but the unit count, which goes as it is. */
  function Sent(field: string, v: JsValue): (r: JsValue)
    ensures field != CountField ==> r != Str("")
    ensures v != Str("") ==> r == v
  {
    if field != CountField && v == Str("") then Null else v
  }

  /** `handleSave`: only for a record id that parses to a positive integer and
      an original to compare with; then the update carries the editable fields
      the edit holds, with the empty string sent as `null` except for the unit
      count. */
  method SavePayload(id: string, original: Option<Fields>, edited: Fields)
    returns (update: Option<(int, Fields)>)
    ensures update.Some? <==> IsPositiveInt(id) && original.Some?
    ensures update.Some? ==> update.value.0 == ParseInt(id).value
    ensures update.Some? ==> forall f :: f in update.value.1 <==> f in EditableFields && Get(edited, f) != Undefined
    ensures update.Some? ==> forall f :: f in update.value.1 ==> update.value.1[f] == Sent(f, Get(edited, f))
  {
    var recordId := RecordId(id);
    if recordId.None? || original.None? {
      return None;
    }
    var payload := Collect(EditableFields, edited);
    return Some((recordId.value, payload));
  }

  /** `parseInt(id, 10)` accepted as a record id only when it is a number
      above zero. */
  method RecordId(id: string) returns (r: Option<int>)
    ensures r.Some? <==> IsPositiveInt(id)
    ensures r.Some? ==> r.value == ParseInt(id).value && r.value > 0
  {
    var parsed := ParseInt(id);
    if parsed.Some? && parsed.value > 0 {
      return parsed;
    }
    return None;
  }

  /** The field-by-field build of `updateData`: each of `fields` the edit
      holds (is not `undefined`), as `Sent` maps it. */
  method Collect(fields: seq<string>, edited: Fields) returns (payload: Fields)
    ensures forall f :: f in payload <==> f in fields && Get(edited, f) != Undefined
    ensures forall f :: f in payload ==> payload[f] == Sent(f, Get(edited, f))
  {
    payload := map[];
    var i := 0;
    while i < |fields|
      invariant 0 <= i <= |fields|
      invariant forall f :: f in payload <==> f in fields[..i] && Get(edited, f) != Undefined
      invariant forall f :: f in payload ==> payload[f] == Sent(f, Get(edited, f))
    {
      var field := fields[i];
      var v := Get(edited, field);
      if v != Undefined {
        payload := payload[field := Sent(field, v)];
      }
      PrefixGrows(fields, i);
      i := i + 1;
    }
    PrefixGrows(fields, i);
  }

  /** The page's edit state. */
  class ProjectEditor {
    var isEditing: bool
    var editedData: Fields
    var originalData: Option<Fields>
    var savedChanges: Option<map<string, Change>>

    constructor()
      ensures !isEditing && editedData == map[] && originalData.None? && savedChanges.None?
    {
      isEditing := false;
      editedData := map[];
      originalData := None;
      savedChanges := None;
    }

    /** `handleEdit`. */
    method Edit()
      modifies this
      ensures isEditing
      ensures editedData == old(editedData) && originalData == old(originalData) && savedChanges == old(savedChanges)
    {
      isEditing := true;
    }

    /** The effect that starts an edit from the loaded details: both the
        original and the edit start as copies of them. */
    method EditingStarted(details: Option<Fields>)
      modifies this
      ensures isEditing && details.Some? ==> originalData == details && editedData == details.value
      ensures !(isEditing && details.Some?) ==> editedData == old(editedData) && originalData == old(originalData)
      ensures isEditing == old(isEditing) && savedChanges == old(savedChanges)
    {
      if isEditing && details.Some? {
        originalData := details;
        editedData := details.value;
      }
    }

    /** `handleFieldChange`: one field of the edit replaced, the others kept. */
    method FieldChanged(field: string, value: JsValue)
      modifies this
      ensures editedData == old(editedData)[field := value]
      ensures isEditing == old(isEditing) && originalData == old(originalData) && savedChanges == old(savedChanges)
    {
      editedData := editedData[field := value];
    }

    /** `handleCancel`: leave edit mode and forget the edit and the change set. */
    method Cancel()
      modifies this
      ensures !isEditing && editedData == map[] && originalData.None? && savedChanges.None?
    {
      isEditing := false;
      editedData := map[];
      originalData := None;
      savedChanges := None;
    }

    /** `handleSave`: the change set shown so far is dropped when an update is
        sent; the update itself is the payload above. */
    method Save(id: string) returns (update: Option<(int, Fields)>)
      modifies this
      ensures update.Some? <==> IsPositiveInt(id) && old(originalData).Some?
      ensures update.Some? ==> savedChanges.None?
      ensures update.None? ==> savedChanges == old(savedChanges)
      ensures isEditing == old(isEditing) && editedData == old(editedData) && originalData == old(originalData)
    {
      update := SavePayload(id, originalData, editedData);
      if update.Some? {
        savedChanges := None;
      }
    }

    /** The effect after a successful update: the change set is recorded when
        it is not empty, the record is reloaded, and edit mode ends. Returns
        the id to reload. */
    method UpdateSucceeded(id: string) returns (reload: Option<int>)
      modifies this
      ensures old(originalData).Some? && IsPositiveInt(id) ==>
        && reload == Some(ParseInt(id).value)
        && !isEditing && originalData.None? && editedData == old(editedData)
        && var changes := ChangesOf(old(originalData).value, old(editedData));
           savedChanges == if changes != map[] then Some(changes) else old(savedChanges)
      ensures !(old(originalData).Some? && IsPositiveInt(id)) ==>
        && reload.None? && isEditing == old(isEditing) && editedData == old(editedData)
        && originalData == old(originalData) && savedChanges == old(savedChanges)
    {
      reload := None;
      var recordId := RecordId(id);
      if originalData.Some? && recordId.Some? {
        var changes := DetectChanges(originalData, editedData);
        if changes != map[] {
          savedChanges := Some(changes);
        }
        reload := recordId;
        isEditing := false;
        originalData := None;
      }
    }
  }
}
