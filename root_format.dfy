/**
 * The form definitions of format.go: the fixed author and book formats, and
 * the builders that turn a format and submitted values into the field lists
 * the HTML templates show. The regular-expression validators are
 * parameters (true means the value matches).
 */
module RootFormat {
  import opened Results

  type Validator = string -> bool

  datatype FormatField = FormatField(name: string, labelText: string, description: string, validator: Option<Validator>)

  datatype Format = Format(name: string, fields: seq<FormatField>, otherFields: seq<FormatField>)

  /** One field as a template shows it. */
  datatype TemplateField = TemplateField(name: string, labelText: string, description: string, value: string,
                                         validationFailed: bool)

  /**
   * getFormat: the author format (name, birthdate) or the book format
   * (name, year); any other id is "format not found".
   */
  function GetFormat(id: string, nameValidator: Validator, yearValidator: Validator): (r: Result<Format, string>)
  {
    if id == "author" then
      Ok(Format("author", [FormatField("name", "Name", "A-Z,a-z", Some(nameValidator)),
                           FormatField("birthdate", "Year of birth", "A year", Some(yearValidator))], []))
    else if id == "book" then
      Ok(Format("book", [FormatField("name", "Name", "A-Z,a-z", Some(nameValidator)),
                         FormatField("year", "Year", "A year", Some(yearValidator))], []))
    else
      Err("format not found")
  }

  function FieldNames(fields: seq<FormatField>): seq<string>
  {
    seq(|fields|, i requires 0 <= i < |fields| => fields[i].name)
  }

  /** The case table of getFormat: which ids exist and which fields, in order, they have. */
  lemma GetFormatTable(id: string, nameValidator: Validator, yearValidator: Validator)
    ensures GetFormat(id, nameValidator, yearValidator).Ok? <==> id == "author" || id == "book"
    ensures GetFormat(id, nameValidator, yearValidator).Ok? ==>
              GetFormat(id, nameValidator, yearValidator).value.name == id
    ensures id == "author" ==> FieldNames(GetFormat(id, nameValidator, yearValidator).value.fields) == ["name", "birthdate"]
    ensures id == "book" ==> FieldNames(GetFormat(id, nameValidator, yearValidator).value.fields) == ["name", "year"]
    ensures GetFormat(id, nameValidator, yearValidator).Err? ==>
              GetFormat(id, nameValidator, yearValidator).error == "format not found"
  {
  }

  /** templateFields: one empty, unvalidated entry per field, in order. */
  function TemplateFields(f: Format): (t: seq<TemplateField>)
    ensures |t| == |f.fields|
    ensures forall i :: 0 <= i < |t| ==>
              t[i] == TemplateField(f.fields[i].name, f.fields[i].labelText, f.fields[i].description, "", false)
  {
    seq(|f.fields|, i requires 0 <= i < |f.fields| =>
      TemplateField(f.fields[i].name, f.fields[i].labelText, f.fields[i].description, "", false))
  }

  /** Whether a submitted value for the field fails that field's validator. */
  predicate EntryFails(field: FormatField, values: map<string, string>)
  {
    field.name in values && field.validator.Some? && !field.validator.value(values[field.name])
  }

  function ValidatedEntry(field: FormatField, values: map<string, string>): TemplateField
  {
    TemplateField(field.name, field.labelText, field.description,
                  if field.name in values then values[field.name] else "",
                  EntryFails(field, values))
  }

  /**
   * validatedFieldsWithValue: the template fields with the submitted values
   * filled in and each field's validation outcome, and whether any failed.
   */
  function ValidatedFieldsWithValue(f: Format, values: map<string, string>): (r: (seq<TemplateField>, bool))
  {
    (seq(|f.fields|, i requires 0 <= i < |f.fields| => ValidatedEntry(f.fields[i], values)),
     exists i :: 0 <= i < |f.fields| && EntryFails(f.fields[i], values))
  }

  /**
   * One entry per format field, in field order: name, label and description
   * are copied; the value is the submitted one or stays empty; the entry
   * fails exactly when a value was submitted, a validator exists and it
   * rejects the value. Submitted keys that are not fields play no part.
   */
  lemma ValidatedFieldsEntries(f: Format, values: map<string, string>, i: int)
    requires 0 <= i < |f.fields|
    ensures |ValidatedFieldsWithValue(f, values).0| == |f.fields|
    ensures ValidatedFieldsWithValue(f, values).0[i].name == f.fields[i].name
    ensures ValidatedFieldsWithValue(f, values).0[i].labelText == f.fields[i].labelText
    ensures ValidatedFieldsWithValue(f, values).0[i].description == f.fields[i].description
    ensures f.fields[i].name in values ==> ValidatedFieldsWithValue(f, values).0[i].value == values[f.fields[i].name]
    ensures f.fields[i].name !in values ==>
              ValidatedFieldsWithValue(f, values).0[i].value == "" && !ValidatedFieldsWithValue(f, values).0[i].validationFailed
    ensures ValidatedFieldsWithValue(f, values).0[i].validationFailed <==>
              f.fields[i].name in values && f.fields[i].validator.Some? && !f.fields[i].validator.value(values[f.fields[i].name])
  {
  }

  /** The returned flag is true exactly when some entry failed. */
  lemma ValidatedFieldsFlag(f: Format, values: map<string, string>)
    ensures ValidatedFieldsWithValue(f, values).1 <==>
              exists i :: 0 <= i < |ValidatedFieldsWithValue(f, values).0| && ValidatedFieldsWithValue(f, values).0[i].validationFailed
  {
    var r := ValidatedFieldsWithValue(f, values);
    if r.1 {
      var i :| 0 <= i < |f.fields| && EntryFails(f.fields[i], values);
      assert r.0[i].validationFailed;
    }
  }

  /** Keys that are not field names do not change the result. */
  lemma ValidatedFieldsIgnoreOtherKeys(f: Format, values: map<string, string>, extra: string, v: string)
    requires forall i :: 0 <= i < |f.fields| ==> f.fields[i].name != extra
    ensures ValidatedFieldsWithValue(f, values[extra := v]) == ValidatedFieldsWithValue(f, values)
  {
    var r := ValidatedFieldsWithValue(f, values);
    var r' := ValidatedFieldsWithValue(f, values[extra := v]);
    forall i | 0 <= i < |f.fields|
      ensures r'.0[i] == r.0[i]
    {
    }
    assert r'.0 == r.0;
    if r.1 {
      var i :| 0 <= i < |f.fields| && EntryFails(f.fields[i], values);
      assert EntryFails(f.fields[i], values[extra := v]);
    }
    if r'.1 {
      var i :| 0 <= i < |f.fields| && EntryFails(f.fields[i], values[extra := v]);
      assert EntryFails(f.fields[i], values);
    }
  }

  /** templateFields is what validatedFieldsWithValue gives when nothing was submitted. */
  lemma TemplateFieldsAreUnsubmitted(f: Format)
    ensures TemplateFields(f) == ValidatedFieldsWithValue(f, map[]).0
    ensures !ValidatedFieldsWithValue(f, map[]).1
  {
    var t := ValidatedFieldsWithValue(f, map[]).0;
    forall i | 0 <= i < |f.fields|
      ensures TemplateFields(f)[i] == t[i]
    {
    }
  }

  /**
   * labelValues: each field's label mapped to the submitted value of that
   * field ("" when absent), the fields applied in order.
   */
  function LabelValues(fields: seq<FormatField>, values: map<string, string>): (m: map<string, string>)
  {
    if fields == [] then map[]
    else
      var last := fields[|fields| - 1];
      LabelValues(fields[..|fields| - 1], values)[last.labelText := Lookup(values, last.name)]
  }

  /** The keys are exactly the labels of the fields. */
  lemma {:induction false} LabelValuesKeys(fields: seq<FormatField>, values: map<string, string>)
    ensures LabelValues(fields, values).Keys == set i | 0 <= i < |fields| :: fields[i].labelText
  {
    if fields != [] {
      var n := |fields| - 1;
      LabelValuesKeys(fields[..n], values);
      assert (set i | 0 <= i < |fields| :: fields[i].labelText)
          == (set i | 0 <= i < n :: fields[..n][i].labelText) + {fields[n].labelText};
    }
  }

  /**
   * A label maps to the submitted value (or "") of the last field carrying
   * it; when labels are distinct, that is the field's own value.
   */
  lemma {:induction false} LabelValuesValue(fields: seq<FormatField>, values: map<string, string>, i: int)
    requires 0 <= i < |fields|
    requires forall j :: i < j < |fields| ==> fields[j].labelText != fields[i].labelText
    ensures fields[i].labelText in LabelValues(fields, values)
    ensures LabelValues(fields, values)[fields[i].labelText] == Lookup(values, fields[i].name)
  {
    var n := |fields| - 1;
    if i < n {
      LabelValuesValue(fields[..n], values, i);
    }
  }
}
