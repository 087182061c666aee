/**
 The driver factory of the delivery backend: `new Driver(name, dep, lic,
 isActive)` builds an identifier from random draws and validates every field on
 its own, storing the invalid marker for a field that fails instead of refusing
 to build the record.
 */
module Drivers {

  import opened FieldResults
  import opened Js
  import opened Regex
  import opened Text

  /** A driver record; each validated field holds its validator's answer. */
  datatype Driver = Driver(
    id: string,
    name: FieldResult<string>,
    department: FieldResult<string>,
    license: FieldResult<string>,
    isActive: bool,
    createdAt: string)

  // ----- identifier -----

  /** The student number in every driver identifier. */
  const StudentId := "32"

  /**
   The random draws one identifier consumes: the number
   `Math.floor(Math.random() * 90 + 10)` and three letter draws.
   */
  datatype IdDraws = IdDraws(number: nat, letters: seq<nat>)

  /** The ranges the random source guarantees. */
  predicate ValidIdDraws(d: IdDraws)
  {
    10 <= d.number <= 99 && |d.letters| == 3 && LetterDrawsInRange(d.letters)
  }

  /** The format `D32-<2-digit number from 10>-<3 upper-case letters>`. */
  predicate IsDriverId(s: string)
  {
    && |s| == 10
    && s[..4] == "D" + StudentId + "-"
    && AllDigits(s[4..6])
    && s[4] != '0'
    && s[6] == '-'
    && AllUpper(s[7..])
  }

  /** `generateDriverId`: the prefix, the number and the letters. */
  function GenerateDriverId(d: IdDraws): (id: string)
    requires ValidIdDraws(d)
    ensures IsDriverId(id)
    ensures id[4..6] == Decimal(d.number) && id[7..] == RandomLetters(3, d.letters)
  {
    DecimalTwoDigits(d.number);
    "D" + StudentId + "-" + Decimal(d.number) + "-" + RandomLetters(3, d.letters)
  }

  /** The draws an identifier of the format was made from. */
  function DrawsOf(id: string): (d: IdDraws)
    requires IsDriverId(id)
    ensures ValidIdDraws(d)
  {
    DigitsValueBounds(id[4..6]);
    assert Pow10(2) == 100 && Pow10(1) == 10;
    IdDraws(DigitsValue(id[4..6]), LetterDraws(id[7..]))
  }

  /** An identifier determines the draws behind it: distinct draws give distinct identifiers. */
  lemma DrawsOfGenerateDriverId(d: IdDraws)
    requires ValidIdDraws(d)
    ensures DrawsOf(GenerateDriverId(d)) == d
  {
    LetterDrawsOfRandomLetters(3, d.letters);
    DigitsValueOfDecimal(d.number);
  }

  /** Every string of the identifier format is generated by some draws. */
  lemma GenerateDriverIdOnto(id: string)
    requires IsDriverId(id)
    ensures GenerateDriverId(DrawsOf(id)) == id
  {
    RandomLettersOfLetterDraws(id[7..]);
    DecimalOfDigitsValue(id[4..6]);
    assert id == id[..4] + id[4..6] + [id[6]] + id[7..];
  }

  // ----- validators -----

  /** The departments a driver can belong to; matching is exact and case-sensitive. */
  const Departments := ["Food", "Furniture", "Electronic"]

  /** `/^[a-zA-Z0-9]{5}$/` */
  const LicenseRegex := Pattern(AsciiAlnumRanges, 5, 5)

  /** `validateName`: a string of 3 to 20 characters of any kind; anything else is invalid. */
  function ValidateName(name: Value): (r: FieldResult<string>)
    ensures r.Valid? <==> name.Str? && 3 <= |name.s| <= 20
    ensures r.Valid? ==> r.value == name.s
  {
    if name.Str? && |name.s| >= 3 && |name.s| <= 20 then Valid(name.s) else Invalid
  }

  /** `validateDepartment`: the department when it is exactly one of the three names. */
  function ValidateDepartment(dep: Value): (r: FieldResult<string>)
    ensures r.Valid? <==> dep == Str("Food") || dep == Str("Furniture") || dep == Str("Electronic")
    ensures r.Valid? ==> r.value == dep.s
  {
    if dep.Str? && Includes(Departments, dep.s) then Valid(dep.s) else Invalid
  }

  /** `validateLicense`: the license when it is exactly 5 ASCII letters and digits. */
  function ValidateLicense(lic: string): (r: FieldResult<string>)
    ensures r.Valid? <==> |lic| == 5 && AllAsciiAlnum(lic)
    ensures r.Valid? ==> r.value == lic
  {
    AsciiAlnumRangesExact(lic);
    if Test(LicenseRegex, lic) then Valid(lic) else Invalid
  }

  // ----- properties of the validators -----

  /** Department matching is case-sensitive: a lower-case spelling is invalid. */
  lemma DepartmentCaseSensitive()
    ensures ValidateDepartment(Str("food")) == Invalid
    ensures ValidateDepartment(Str("Food")) == Valid("Food")
  {
  }

  /** Re-validating an accepted name, department or license gives it back. */
  lemma ValidatorsIdempotent(name: Value, dep: Value, lic: string)
    ensures ValidateName(name).Valid? ==> ValidateName(Str(ValidateName(name).value)) == ValidateName(name)
    ensures ValidateDepartment(dep).Valid? ==> ValidateDepartment(Str(ValidateDepartment(dep).value)) == ValidateDepartment(dep)
    ensures ValidateLicense(lic).Valid? ==> ValidateLicense(ValidateLicense(lic).value) == ValidateLicense(lic)
  {
  }

  // ----- the constructor -----

  /**
   `new Driver(...)`. The random draws and the `createdAt` timestamp, which the
   source reads from `Math.random()` and the clock, are parameters.
   */
  function NewDriver(name: Value, dep: Value, lic: string, isActive: Value, draws: IdDraws, createdAt: string): (d: Driver)
    requires ValidIdDraws(draws)
    ensures IsDriverId(d.id) && DrawsOf(d.id) == draws
    ensures d.name == ValidateName(name)
    ensures d.department == ValidateDepartment(dep)
    ensures d.license == ValidateLicense(lic)
    ensures d.isActive <==> Truthy(isActive)
    ensures d.createdAt == createdAt
  {
    DrawsOfGenerateDriverId(draws);
    Driver(
      GenerateDriverId(draws),
      ValidateName(name),
      ValidateDepartment(dep),
      ValidateLicense(lic),
      if Truthy(isActive) then true else false,
      createdAt)
  }

  /** Well-formed inputs come back unchanged, field by field. */
  lemma NewDriverAllValid(name: string, dep: string, lic: string, isActive: bool, draws: IdDraws, createdAt: string)
    requires ValidIdDraws(draws)
    requires 3 <= |name| <= 20
    requires dep in Departments
    requires |lic| == 5 && AllAsciiAlnum(lic)
    ensures NewDriver(Str(name), Str(dep), lic, Boolean(isActive), draws, createdAt)
         == Driver(GenerateDriverId(draws), Valid(name), Valid(dep), Valid(lic), isActive, createdAt)
  {
  }

  /**
   Each field depends only on its own argument: two constructions that agree on
   an argument agree on the field it feeds, whatever the other arguments are.
   */
  lemma NewDriverFieldsIndependent(
    name: Value, dep: Value, lic: string, isActive: Value, draws: IdDraws, createdAt: string,
    name': Value, dep': Value, lic': string, isActive': Value, draws': IdDraws, createdAt': string)
    requires ValidIdDraws(draws) && ValidIdDraws(draws')
    ensures var d := NewDriver(name, dep, lic, isActive, draws, createdAt);
            var e := NewDriver(name', dep', lic', isActive', draws', createdAt');
            && (name == name' ==> d.name == e.name)
            && (dep == dep' ==> d.department == e.department)
            && (lic == lic' ==> d.license == e.license)
            && (Truthy(isActive) == Truthy(isActive') ==> d.isActive == e.isActive)
            && (d.id == e.id <==> draws == draws')
  {
  }

  /** A two-character name is marked invalid while the other fields pass through. */
  lemma ShortNameScenario(draws: IdDraws, createdAt: string)
    requires ValidIdDraws(draws)
    ensures var d := NewDriver(Str("Al"), Str("Food"), "AB12C", Boolean(true), draws, createdAt);
            && d.name == Invalid
            && d.department == Valid("Food")
            && d.license == Valid("AB12C")
            && d.isActive
  {
  }
}
