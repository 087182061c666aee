# Delivery backend record factories, in Dafny

This project models the two record factories of a small logistics backend:
`Package` (`backend-server/models/package.js`) and `Driver`
(`backend-server/models/driver.js`). Each factory builds a random identifier
of a fixed shape and validates every raw field independently. A field that
fails validation holds the invalid marker (`false` in JavaScript) and the
record is still built.

The model is functional:

- `FieldResults.FieldResult<T> = Valid(value) | Invalid` is the "value or `false`" convention.
- `Js.Value` stands for the JavaScript values the validators inspect. The validators look at
  `typeof`, strict equality and truthiness, so those are modelled.
- `Regex` models the one regular-expression shape the code uses, `^[ranges]{min,max}$`.
  `Regex.Test` is a greedy anchored matcher, and it is proved equal to the declarative reading
  "the length is within the bounds and every character is in the class".
- `Text` holds the identifier builders. `Decimal` is the `${n}` rendering and `RandomLetters` is
  `generateRandomLetter`. Each has an inverse (`DigitsValue`, `LetterDraws`), and round trips
  are proved in both directions.
- `Packages` and `Drivers` hold the validators, the identifier generators and the constructors
  `NewPackage` and `NewDriver`. The random draws and the creation timestamp are parameters.

Identifier generation is proved to be a bijection between draws in range and strings of the
identifier format. `GeneratePackageId` / `GenerateDriverId` always yield the format.
`DrawsOf` recovers the draws from an identifier. Every string of the format is generated by
the draws `DrawsOf` gives.

`validateDescription` returns `false` for a non-string or a string over 30 characters
(`package.js:91-93`), so `Package.description` is a `FieldResult<string>` like the other
validated fields.

## Model

| member | source | states |
|---|---|---|
| `Js.Includes` | backend-server/models/driver.js:62-63 | `Array.prototype.includes` is true exactly when the element occurs in the array |
| `Js.FalsyValues` | backend-server/models/package.js:18 | among the modelled values, the flag coercion `x ? true : false` is false exactly for `undefined`, `null`, `false`, `0` and `""` |
| `Js.TruthyBoolean` | backend-server/models/driver.js:15 | a boolean flag is stored unchanged |
| `Regex.GreedyRun` | backend-server/models/package.js:52-53 | the greedy `{,max}` run consumes at most `max` characters, all in the class, and stops early only at a character outside the class |
| `Regex.Test` | backend-server/models/package.js:73-74 | an anchored `^[class]{min,max}$` test succeeds exactly when `min <= length <= max` and every character is in the class |
| `Text.AsciiAlnumRangesExact` | backend-server/models/driver.js:73 | the bracket expression `[a-zA-Z0-9]` accepts exactly the ASCII letters and digits |
| `Text.Decimal` | backend-server/models/package.js:30 | `${n}` renders a non-empty digit string with no leading zero except for zero |
| `Text.DigitsValueOfDecimal` | backend-server/models/package.js:29-30 | reading back the rendered number gives the number |
| `Text.DigitsValueBounds` | backend-server/models/package.js:29-30 | a string of `k` digits denotes a number below `10^k`, and at least `10^(k-1)` when its lead digit is not zero |
| `Text.DecimalOfDigitsValue` | backend-server/models/driver.js:26-28 | every canonical digit string is the rendering of the number it denotes |
| `Text.DecimalTwoDigits` | backend-server/models/driver.js:26 | a number drawn from 10 to 99 renders with exactly two digits |
| `Text.DecimalThreeDigits` | backend-server/models/package.js:29 | a number drawn from 100 to 999 renders with exactly three digits |
| `Text.RandomLetters` | backend-server/models/package.js:39-43 | `generateRandomLetter(len)` yields exactly `len` characters, each in `A`..`Z` |
| `Text.LetterDrawsOfRandomLetters` | backend-server/models/driver.js:37-41 | the generated letters determine the draws (char code minus 65) that produced them |
| `Text.RandomLettersOfLetterDraws` | backend-server/models/driver.js:37-41 | every upper-case string is produced by some draws in 0..25 |
| `Packages.GeneratePackageId` | backend-server/models/package.js:26-31 | the identifier has length 10: `P`, two upper-case letters, `-GZ-`, three digits with a non-zero lead |
| `Packages.DrawsOfGeneratePackageId` | backend-server/models/package.js:26-31 | distinct draws give distinct package identifiers, and the draws can be read back |
| `Packages.GeneratePackageIdOnto` | backend-server/models/package.js:26-31 | every string of the package identifier format is generated by some draws in range |
| `Packages.ValidateTitle` | backend-server/models/package.js:51-54 | the title is kept exactly when it has 3 to 15 characters, all ASCII letters or digits, otherwise invalid |
| `Packages.ValidateWeight` | backend-server/models/package.js:62-64 | the weight is kept exactly when it is positive; zero and negatives are invalid |
| `Packages.ValidateDestination` | backend-server/models/package.js:72-75 | the destination is kept exactly when it has 5 to 15 characters, all ASCII letters or digits, otherwise invalid |
| `Packages.ValidateDescription` | backend-server/models/package.js:82-94 | a string of 1 to 30 characters is kept, `""` becomes the default text, anything else is invalid; every accepted result has 1 to 30 characters |
| `Packages.DestinationIsTitle` | backend-server/models/package.js:51-75 | every valid destination is also a valid title |
| `Packages.ValidateTitleIdempotent` | backend-server/models/package.js:51-54 | re-validating an accepted title returns it unchanged |
| `Packages.ValidateDestinationIdempotent` | backend-server/models/package.js:72-75 | re-validating an accepted destination returns it unchanged |
| `Packages.ValidateDescriptionIdempotent` | backend-server/models/package.js:82-94 | re-validating an accepted description returns it unchanged, including the 23-character default |
| `Packages.NewPackage` | backend-server/models/package.js:11-19 | the record's identifier has the package format and encodes the draws; each field is its own validator's output; `isAllocated` is the argument's truthiness |
| `Packages.NewPackageAllValid` | backend-server/models/package.js:11-19 | well-formed arguments are stored unchanged, each as a valid field |
| `Packages.NewPackageFieldsIndependent` | backend-server/models/package.js:12-18 | each field depends only on its own argument; identifiers are equal exactly when the draws are |
| `Packages.EmptyDescriptionScenario` | backend-server/models/package.js:89-90 | `("Box1", 5, "NewYork1", "", true)` keeps every field and stores the default description |
| `Packages.NegativeWeightScenario` | backend-server/models/package.js:62-64 | `("Box1", -3, "NewYork1", "Fragile", false)` marks only the weight invalid |
| `Drivers.GenerateDriverId` | backend-server/models/driver.js:24-29 | the identifier has length 10: `D32-`, two digits with a non-zero lead, `-`, three upper-case letters |
| `Drivers.DrawsOfGenerateDriverId` | backend-server/models/driver.js:24-29 | distinct draws give distinct driver identifiers, and the draws can be read back |
| `Drivers.GenerateDriverIdOnto` | backend-server/models/driver.js:24-29 | every string of the driver identifier format is generated by some draws in range |
| `Drivers.ValidateName` | backend-server/models/driver.js:49-53 | the name is kept exactly when it is a string of 3 to 20 characters of any kind, otherwise invalid |
| `Drivers.ValidateDepartment` | backend-server/models/driver.js:61-64 | the department is kept exactly when it is the string `Food`, `Furniture` or `Electronic` |
| `Drivers.ValidateLicense` | backend-server/models/driver.js:72-75 | the license is kept exactly when it has 5 characters, all ASCII letters or digits |
| `Drivers.DepartmentCaseSensitive` | backend-server/models/driver.js:62-63 | `food` is invalid while `Food` is valid |
| `Drivers.ValidatorsIdempotent` | backend-server/models/driver.js:49-75 | re-validating an accepted name, department or license returns it unchanged |
| `Drivers.NewDriver` | backend-server/models/driver.js:10-17 | the record's identifier has the driver format and encodes the draws; each field is its own validator's output; `isActive` is the argument's truthiness |
| `Drivers.NewDriverAllValid` | backend-server/models/driver.js:10-17 | well-formed arguments are stored unchanged, each as a valid field |
| `Drivers.NewDriverFieldsIndependent` | backend-server/models/driver.js:11-15 | each field depends only on its own argument; identifiers are equal exactly when the draws are |
| `Drivers.ShortNameScenario` | backend-server/models/driver.js:49-53 | `("Al", "Food", "AB12C", true)` marks only the name invalid |

## Left out

- `Math.random()` (`package.js:29,41`, `driver.js:26,39`) is not modelled as a source of randomness. Each call is a parameter already in its range: a letter draw in 0..25, a package number in 100..999, a driver number in 10..99.
- `new Date().toLocaleString()` (`package.js:17`, `driver.js:16`) reads the clock and depends on the locale. The timestamp is an opaque `createdAt` string parameter.
- Coercion of non-string arguments in `RegExp.prototype.test` is left out. For example, `validateTitle(null)` tests `"null"` and a numeric license `12345` passes. Title, destination and license are therefore `string` arguments.
- Coercion in `weight > 0` for non-numbers is left out, and so are floating-point weights, `NaN` and `Infinity`. The weight is an integer.
- `Js.Truthy` treats numbers as integers, so `NaN` and `-0` (both falsy in JavaScript) are not represented. BigInt and `document.all` are left out too.
- Strings are sequences of Unicode scalar values, so `|s|` agrees with JavaScript's `.length` (UTF-16 code units) only for text inside the Basic Multilingual Plane. A character above U+FFFF counts once here and twice in JavaScript. Unicode normalisation is not modelled either. The regex-checked fields are unaffected, because such a character is never an ASCII letter or digit.
- Drivers.ValidateName: its 3 to 20 bound counts Unicode scalar values, not UTF-16 code units. A name with characters above U+FFFF can be rejected here although JavaScript accepts it, for example `"a😀"` (length 3 in JavaScript, 2 here).
- Packages.ValidateDescription: its 1 to 30 bound counts Unicode scalar values, not UTF-16 code units. A description with characters above U+FFFF can be accepted here although JavaScript rejects it as longer than 30.
- Identifier uniqueness across calls is not modelled, because the code performs no collision check. The model proves only that one construction's identifier determines its draws.
- The class and `this` method dispatch, and `module.exports`, are wiring with no logic of their own.
