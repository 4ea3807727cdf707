/**
 * The program's own validators and the two formats it registers with the
 * boocat service (main.go). Compiling and matching a regular expression is
 * not modelled: the matcher of the pattern is a parameter. The book's
 * author validator is the database's reference validator for "author",
 * also a parameter.
 */
module MainFormats {
  import opened Results
  import opened GoStd
  import BoocatFormats
  import BoocatMock

  /** The pattern both formats use for a name. */
  const NamePattern: string := "^([A-Z][a-z]*)([ |-][A-Z][a-z]*)*$"

  const NotAYear: string := "not a valid year number"

  /**
   * validateYear: a year is any integer strconv.Atoi accepts that is not
   * negative; every other value gets the same reason.
   */
  function ValidateYear(value: string): (reason: string)
    ensures reason == "" <==> Atoi(value).Some? && Atoi(value).value >= 0
    ensures reason != "" ==> reason == NotAYear
  {
    var year := Atoi(value);
    if year.None? then NotAYear
    else if year.value < 0 then NotAYear
    else ""
  }

  /** Every number Itoa prints, up to the largest int, is a valid year. */
  lemma ValidateYearAcceptsPrinted(n: nat)
    requires n <= MaxInt64
    ensures ValidateYear(Itoa(n)) == ""
  {
    AtoiItoa(n);
  }

  /**
   * The program's validator and the one of the tests accept the same
   * values; they differ only in the reason given for a negative number.
   */
  lemma ValidateYearAgreesWithTests(value: string)
    ensures ValidateYear(value) == "" <==> BoocatMock.ValidateYear(value) == ""
    ensures Atoi(value).None? ==> ValidateYear(value) == BoocatMock.ValidateYear(value)
    ensures Atoi(value).Some? && Atoi(value).value < 0 ==>
              ValidateYear(value) == NotAYear && BoocatMock.ValidateYear(value) == "Invalid year"
  {
  }

  /** The reason regExpValidator gives for a value its pattern does not match. */
  function NoMatch(pattern: string): string
  {
    "does not match regular expression '" + pattern + "'"
  }

  /**
   * regExpValidator: a validator that accepts exactly the values the
   * compiled pattern matches, and names the pattern otherwise.
   */
  function RegExpValidator(pattern: string, matches: string -> bool): (v: BoocatFormats.Validator)
    ensures forall value :: v(value) == "" <==> matches(value)
    ensures forall value :: !matches(value) ==> v(value) == NoMatch(pattern)
  {
    value => if matches(value) then "" else NoMatch(pattern)
  }

  /** The author format: a name, a year of birth and a free biography. */
  function AuthorFormat(nameMatches: string -> bool): (f: BoocatFormats.Format)
    ensures f.name == "author"
    ensures f.fields.Keys == {"name", "birthdate", "biography"}
    ensures f.searchable == {"name", "biography"}
    ensures f.fields["biography"].None?
    ensures f.fields["name"].Some? && forall value :: f.fields["name"].value(value) == "" <==> nameMatches(value)
    ensures f.fields["birthdate"].Some? && forall value :: f.fields["birthdate"].value(value) == ValidateYear(value)
  {
    BoocatFormats.Format(
      "author",
      map["name" := Some(RegExpValidator(NamePattern, nameMatches)),
          "birthdate" := Some(ValidateYear),
          "biography" := None],
      {"name", "biography"})
  }

  /** The book format: a name, a year, a reference to an author and a free synopsis. */
  function BookFormat(nameMatches: string -> bool, authorReference: BoocatFormats.Validator): (f: BoocatFormats.Format)
    ensures f.name == "book"
    ensures f.fields.Keys == {"name", "year", "author", "synopsis"}
    ensures f.searchable == {"name", "synopsis"}
    ensures f.fields["synopsis"].None?
    ensures f.fields["name"].Some? && forall value :: f.fields["name"].value(value) == "" <==> nameMatches(value)
    ensures f.fields["year"].Some? && forall value :: f.fields["year"].value(value) == ValidateYear(value)
    ensures f.fields["author"].Some? && forall value :: f.fields["author"].value(value) == authorReference(value)
  {
    BoocatFormats.Format(
      "book",
      map["name" := Some(RegExpValidator(NamePattern, nameMatches)),
          "year" := Some(ValidateYear),
          "author" := Some(authorReference),
          "synopsis" := None],
      {"name", "synopsis"})
  }

  /**
   * An author whose year of birth is negative is refused for that field
   * alone, with the year reason, whatever its biography says.
   */
  lemma AuthorRefusesNegativeBirthdate(nameMatches: string -> bool, name: string, biography: string)
    requires nameMatches(name)
    ensures BoocatFormats.Validate(AuthorFormat(nameMatches),
                                   map["name" := name, "birthdate" := "-1", "biography" := biography])
            == map["birthdate" := NotAYear]
  {
    var f := AuthorFormat(nameMatches);
    var record := map["name" := name, "birthdate" := "-1", "biography" := biography];
    assert Atoi("-1") == Some(-1) by {
      assert "-1"[1..] == "1";
      assert DigitsValue("1") == 1;
    }
    var failed := BoocatFormats.Validate(f, record);
    assert failed.Keys == {"birthdate"} by {
      BoocatFormats.ValidateWithValidator(f, record, "name");
      BoocatFormats.ValidateWithValidator(f, record, "birthdate");
      BoocatFormats.ValidateNilValidator(f, record, "biography");
    }
  }

  /**
   * A book may not carry an author's biography: the field is not one of
   * the book format's and is reported as such.
   */
  lemma BookRefusesAuthorFields(nameMatches: string -> bool, authorReference: BoocatFormats.Validator,
                                record: Record)
    requires "biography" in record
    ensures "biography" in BoocatFormats.Validate(BookFormat(nameMatches, authorReference), record)
    ensures BoocatFormats.Validate(BookFormat(nameMatches, authorReference), record)["biography"]
            == "not a field of format 'book'"
  {
    BoocatFormats.ValidateUndeclared(BookFormat(nameMatches, authorReference), record, "biography");
  }

  /** In both formats every searchable field is a declared field. */
  lemma SearchableAreDeclared(nameMatches: string -> bool, authorReference: BoocatFormats.Validator)
    ensures AuthorFormat(nameMatches).searchable <= AuthorFormat(nameMatches).fields.Keys
    ensures BookFormat(nameMatches, authorReference).searchable <= BookFormat(nameMatches, authorReference).fields.Keys
  {
    var a := AuthorFormat(nameMatches);
    var b := BookFormat(nameMatches, authorReference);
    assert "name" in a.fields && "biography" in a.fields;
    assert "name" in b.fields && "synopsis" in b.fields;
  }
}
