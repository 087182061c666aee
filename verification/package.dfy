/**
 The package factory of the delivery backend: `new Package(title, weight,
 destination, description, isAllocated)` builds an identifier from random
 draws and validates every field on its own, storing the invalid marker for a
 field that fails instead of refusing to build the record.
 */
module Packages {

  import opened FieldResults
  import opened Js
  import opened Regex
  import opened Text

  /** A package record; each validated field holds its validator's answer. */
  datatype Package = Package(
    id: string,
    title: FieldResult<string>,
    weight: FieldResult<int>,
    destination: FieldResult<string>,
    description: FieldResult<string>,
    createdAt: string,
    isAllocated: bool)

  // ----- identifier -----

  /** The company initials in every package identifier. */
  const Initials := "GZ"

  /**
   The random draws one identifier consumes: two letter draws and the number
   `Math.floor(Math.random() * 900 + 100)`.
   */
  datatype IdDraws = IdDraws(letters: seq<nat>, number: nat)

  /** The ranges the random source guarantees. */
  predicate ValidIdDraws(d: IdDraws)
  {
    |d.letters| == 2 && LetterDrawsInRange(d.letters) && 100 <= d.number <= 999
  }

  /** The format `P<2 upper-case letters>-GZ-<3-digit number from 100>`. */
  predicate IsPackageId(s: string)
  {
    && |s| == 10
    && s[0] == 'P'
    && AllUpper(s[1..3])
    && s[3..7] == "-" + Initials + "-"
    && AllDigits(s[7..])
    && s[7] != '0'
  }

  /** `generatePackageId`: the prefix, the letters, the initials and the number. */
  function GeneratePackageId(d: IdDraws): (id: string)
    requires ValidIdDraws(d)
    ensures IsPackageId(id)
    ensures id[1..3] == RandomLetters(2, d.letters) && id[7..] == Decimal(d.number)
  {
    DecimalThreeDigits(d.number);
    "P" + RandomLetters(2, d.letters) + "-" + Initials + "-" + Decimal(d.number)
  }

  /** The draws an identifier of the format was made from. */
  function DrawsOf(id: string): (d: IdDraws)
    requires IsPackageId(id)
    ensures ValidIdDraws(d)
  {
    DigitsValueBounds(id[7..]);
    assert Pow10(3) == 1000 && Pow10(2) == 100;
    IdDraws(LetterDraws(id[1..3]), DigitsValue(id[7..]))
  }

  /** An identifier determines the draws behind it: distinct draws give distinct identifiers. */
  lemma DrawsOfGeneratePackageId(d: IdDraws)
    requires ValidIdDraws(d)
    ensures DrawsOf(GeneratePackageId(d)) == d
  {
    LetterDrawsOfRandomLetters(2, d.letters);
    DigitsValueOfDecimal(d.number);
  }

  /** Every string of the identifier format is generated by some draws. */
  lemma GeneratePackageIdOnto(id: string)
    requires IsPackageId(id)
    ensures GeneratePackageId(DrawsOf(id)) == id
  {
    var d := DrawsOf(id);
    RandomLettersOfLetterDraws(id[1..3]);
    DecimalOfDigitsValue(id[7..]);
    assert id == [id[0]] + id[1..3] + id[3..7] + id[7..];
  }

  // ----- validators -----

  /** `/^[a-zA-Z0-9]{3,15}$/` */
  const TitleRegex := Pattern(AsciiAlnumRanges, 3, 15)

  /** `/^[a-zA-Z0-9]{5,15}$/` */
  const DestinationRegex := Pattern(AsciiAlnumRanges, 5, 15)

  /** The longest description kept as given. */
  const MaxDescriptionLength := 30

  /** What an empty description is replaced with. */
  const DefaultDescription := "No description provided"

  /** `validateTitle`: the title when it is 3 to 15 ASCII letters and digits. */
  function ValidateTitle(title: string): (r: FieldResult<string>)
    ensures r.Valid? <==> 3 <= |title| <= 15 && AllAsciiAlnum(title)
    ensures r.Valid? ==> r.value == title
  {
    AsciiAlnumRangesExact(title);
    if Test(TitleRegex, title) then Valid(title) else Invalid
  }

  /** `validateWeight`: the weight when it is positive; zero and below are invalid. */
  function ValidateWeight(weight: int): (r: FieldResult<int>)
    ensures r.Valid? <==> weight > 0
    ensures r.Valid? ==> r.value == weight
  {
    if weight > 0 then Valid(weight) else Invalid
  }

  /** `validateDestination`: the destination when it is 5 to 15 ASCII letters and digits. */
  function ValidateDestination(destination: string): (r: FieldResult<string>)
    ensures r.Valid? <==> 5 <= |destination| <= 15 && AllAsciiAlnum(destination)
    ensures r.Valid? ==> r.value == destination
  {
    AsciiAlnumRangesExact(destination);
    if Test(DestinationRegex, destination) then Valid(destination) else Invalid
  }

  /**
   `validateDescription`: a string of 1 to 30 characters is kept, the empty
   string becomes the default text, anything else is invalid.
   */
  function ValidateDescription(description: Value): (r: FieldResult<string>)
    ensures r.Valid? <==> description.Str? && |description.s| <= MaxDescriptionLength
    ensures r.Valid? ==> 1 <= |r.value| <= MaxDescriptionLength
    ensures r.Valid? && |description.s| > 0 ==> r.value == description.s
    ensures description == Str("") ==> r == Valid(DefaultDescription)
  {
    if description.Str? && 0 < |description.s| <= MaxDescriptionLength then
      Valid(description.s)
    else if description.Str? && |description.s| == 0 then
      Valid(DefaultDescription)
    else
      Invalid
  }

  // ----- properties of the validators -----

  /** A valid destination is also a valid title: 5 to 15 lies inside 3 to 15. */
  lemma DestinationIsTitle(destination: string)
    requires ValidateDestination(destination).Valid?
    ensures ValidateTitle(destination) == Valid(destination)
  {
  }

  /** Re-validating an accepted title gives it back. */
  lemma ValidateTitleIdempotent(title: string)
    requires ValidateTitle(title).Valid?
    ensures ValidateTitle(ValidateTitle(title).value) == ValidateTitle(title)
  {
  }

  /** Re-validating an accepted destination gives it back. */
  lemma ValidateDestinationIdempotent(destination: string)
    requires ValidateDestination(destination).Valid?
    ensures ValidateDestination(ValidateDestination(destination).value) == ValidateDestination(destination)
  {
  }

  /** Re-validating an accepted description, the default text included, gives it back. */
  lemma ValidateDescriptionIdempotent(description: Value)
    requires ValidateDescription(description).Valid?
    ensures ValidateDescription(Str(ValidateDescription(description).value)) == ValidateDescription(description)
  {
  }

  // ----- the constructor -----

  /**
   `new Package(...)`. The random draws and the `createdAt` timestamp, which the
   source reads from `Math.random()` and the clock, are parameters.
   */
  function NewPackage(
    title: string, weight: int, destination: string, description: Value, isAllocated: Value,
    draws: IdDraws, createdAt: string): (p: Package)
    requires ValidIdDraws(draws)
    ensures IsPackageId(p.id) && DrawsOf(p.id) == draws
    ensures p.title == ValidateTitle(title)
    ensures p.weight == ValidateWeight(weight)
    ensures p.destination == ValidateDestination(destination)
    ensures p.description == ValidateDescription(description)
    ensures p.createdAt == createdAt
    ensures p.isAllocated <==> Truthy(isAllocated)
  {
    DrawsOfGeneratePackageId(draws);
    Package(
      GeneratePackageId(draws),
      ValidateTitle(title),
      ValidateWeight(weight),
      ValidateDestination(destination),
      ValidateDescription(description),
      createdAt,
      if Truthy(isAllocated) then true else false)
  }

  /** Well-formed inputs come back unchanged, field by field. */
  lemma NewPackageAllValid(
    title: string, weight: int, destination: string, description: string, isAllocated: bool,
    draws: IdDraws, createdAt: string)
    requires ValidIdDraws(draws)
    requires 3 <= |title| <= 15 && AllAsciiAlnum(title)
    requires weight > 0
    requires 5 <= |destination| <= 15 && AllAsciiAlnum(destination)
    requires 0 < |description| <= MaxDescriptionLength
    ensures NewPackage(title, weight, destination, Str(description), Boolean(isAllocated), draws, createdAt)
         == Package(GeneratePackageId(draws), Valid(title), Valid(weight), Valid(destination),
                    Valid(description), createdAt, isAllocated)
  {
  }

  /**
   Each field depends only on its own argument: two constructions that agree on
   an argument agree on the field it feeds, whatever the other arguments are.
   */
  lemma NewPackageFieldsIndependent(
    title: string, weight: int, destination: string, description: Value, isAllocated: Value,
    draws: IdDraws, createdAt: string,
    title': string, weight': int, destination': string, description': Value, isAllocated': Value,
    draws': IdDraws, createdAt': string)
    requires ValidIdDraws(draws) && ValidIdDraws(draws')
    ensures var p := NewPackage(title, weight, destination, description, isAllocated, draws, createdAt);
            var q := NewPackage(title', weight', destination', description', isAllocated', draws', createdAt');
            && (title == title' ==> p.title == q.title)
            && (weight == weight' ==> p.weight == q.weight)
            && (destination == destination' ==> p.destination == q.destination)
            && (description == description' ==> p.description == q.description)
            && (Truthy(isAllocated) == Truthy(isAllocated') ==> p.isAllocated == q.isAllocated)
            && (p.id == q.id <==> draws == draws')
  {
  }

  /** A package built with an empty description carries the default text. */
  lemma EmptyDescriptionScenario(draws: IdDraws, createdAt: string)
    requires ValidIdDraws(draws)
    ensures var p := NewPackage("Box1", 5, "NewYork1", Str(""), Boolean(true), draws, createdAt);
            && p.title == Valid("Box1")
            && p.weight == Valid(5)
            && p.destination == Valid("NewYork1")
            && p.description == Valid("No description provided")
            && p.isAllocated
  {
  }

  /** A negative weight is marked invalid while every other field passes through. */
  lemma NegativeWeightScenario(draws: IdDraws, createdAt: string)
    requires ValidIdDraws(draws)
    ensures var p := NewPackage("Box1", -3, "NewYork1", Str("Fragile"), Boolean(false), draws, createdAt);
            && p.title == Valid("Box1")
            && p.weight == Invalid
            && p.destination == Valid("NewYork1")
            && p.description == Valid("Fragile")
            && !p.isAllocated
  {
  }
}
