# Request-validation demo: a Dafny model

This project models the sequential core of a small Spring demonstration of
declarative request validation:

- the global exception advice (`ControllerAdviceHandler`), which turns validation
  failures into one `"field: message, field: message"` text and a response with code
  101, and any other failure into code 200 with no text;
- the response envelope `CommonResult` (five nullable fields, five constructors,
  eight static factories, five setters);
- the response-code enumeration `RespCodeEnum` (100, 101, 200; `equalCode`, `valueOf`,
  and the setters that can change a constant's code);
- the default patterns of the `@PhoneNo` (`^\d{8,11}$`) and `@IdNo` (the 18-character
  citizen ID number of GB 11643-1999) constraints, as hand-written predicates, with
  the single-violation, null-is-valid and repeated-declaration semantics they share;
- the `@DateFormat` validator (`initialize`, `isValid`), with date parsing left
  to a parameter.

Java `null` is `Option.None`; an exception the modelled code throws is a
`Result.Thrown` value. Files: `nullable.dfy`, `resp_codes.dfy`, `results.dfy`,
`advice_handler.dfy`, `patterns.dfy`, `phone_numbers.dfy`, `id_numbers.dfy`,
`date_formats.dfy`, one module each.

Main results:

- `AdviceHandler.JoinAndStrip` / `ConcatPiecesIsJoinThenComma`: the converters build
  `label, ": ", message, ", "` for every entry, concatenate, and cut the last two
  characters off. For one or more entries this is exactly the `", "`-join of the
  `label: message` segments in order. For none it is `substring(0, -2)` on `""`,
  which throws. So with the message setting on, a validation exception whose error
  list is present but empty makes the advice itself throw instead of answering 101
  (`EmptyListEscapesTheAdvice`).
- `AdviceHandler.Label`: the violation label is the part of the property path after
  its last dot, or the whole path when it has none. It never contains a dot.
- `RespCodes.RespCodeTable.ValueOf` returns the first constant in declaration order
  with the given code. While the codes are distinct, `valueOf(e.getCode()) == e`.
  `setCode` can break distinctness, and then the round trip fails
  (`SetCodeCanBreakRoundTrip`).
- `IdNumbers.MatchesIffLayout`: the ID pattern accepts exactly the 18-character
  strings that have a non-zero first digit, digits up to position 17, a century of
  18, 19, 20 or 30-39, a month 1-12, a day 1-31, and a digit, `X` or `x` last. Each
  alternation group is proved equal to its numeric range. There is no calendar or
  check-character test (`NoCalendarCheck`, `CheckCharacterNotComputed`).
- `PhoneNumbers.MatchesIff`: the phone pattern accepts exactly the strings of 8 to 11
  ASCII digits.

Points the code settles:

- Pattern constraints treat `null` as valid, but the empty string is still matched
  against the pattern, so `""` fails both default patterns.
- `success()`, `failed()` and `respWith(...)` populate neither `data` nor `rows`;
  no constructor fills both.
- With the message setting off, the text is `null`, not an empty string.

## Model

| member | source | states |
|---|---|---|
| `Nullable.Substring` | src/main/java/com/luo/demo/validation/controller/ControllerAdviceHandler.java:130 | `substring(begin, end)` succeeds exactly when `0 <= begin <= end <= length`, and then returns the `end - begin` characters between them; otherwise it throws `StringIndexOutOfBounds` |
| `RespCodes.Values` | src/main/java/com/luo/demo/validation/enums/RespCodeEnum.java:9-11 | `values()` lists the three constants, in declaration order |
| `RespCodes.Ordinal` | src/main/java/com/luo/demo/validation/enums/RespCodeEnum.java:9-11 | each constant sits at its declaration position in `values()` |
| `RespCodes.DeclaredCodes` | src/main/java/com/luo/demo/validation/enums/RespCodeEnum.java:9-11 | the declared code table assigns a code to every constant: 100, 101 and 200 |
| `RespCodes.DeclaredCodesDistinct` | src/main/java/com/luo/demo/validation/enums/RespCodeEnum.java:9-11 | SUCCESS = 100, PARAM_INVALID = 101, FAILED = 200, and these are pairwise distinct |
| `RespCodes.FirstWithCode` | src/main/java/com/luo/demo/validation/enums/RespCodeEnum.java:25-28 | the filter/findFirst returns null exactly when no constant has the code; otherwise it returns a constant with that code, and no earlier constant has it |
| `RespCodes.FirstWithCodeInOrder` | src/main/java/com/luo/demo/validation/enums/RespCodeEnum.java:24-29 | over `values()`, the lookup is null iff no constant carries the code, and a hit has the code while no constant of lower ordinal does |
| `RespCodes.FirstWithCodeOfMember` | src/main/java/com/luo/demo/validation/enums/RespCodeEnum.java:24-29 | with distinct codes, looking up a constant's own code finds that constant |
| `RespCodes.SetCodeCanBreakRoundTrip` | src/main/java/com/luo/demo/validation/enums/RespCodeEnum.java:35-37 | after `PARAM_INVALID.setCode(100)` the codes are no longer distinct, and `valueOf(PARAM_INVALID.getCode())` returns SUCCESS |
| `RespCodes.RespCodeTable.constructor` | src/main/java/com/luo/demo/validation/enums/RespCodeEnum.java:9-18 | every constant starts with its declared code and description, and the codes are distinct |
| `RespCodes.RespCodeTable.EqualCode` | src/main/java/com/luo/demo/validation/enums/RespCodeEnum.java:20-22 | `equalCode(c)` holds exactly when `c` is non-null and equals the constant's current code |
| `RespCodes.RespCodeTable.GetCode` | src/main/java/com/luo/demo/validation/enums/RespCodeEnum.java:31-33 | `getCode()` returns the constant's current code. It has no contract of its own; `EqualCode`, `ValueOf` and `ValueOfGetCode` state what it means for lookups |
| `RespCodes.RespCodeTable.GetDesc` | src/main/java/com/luo/demo/validation/enums/RespCodeEnum.java:39-41 | `getDesc()` returns the constant's current description. It has no contract of its own; `SetCode` and `SetDesc` state how it changes |
| `RespCodes.RespCodeTable.ValueOf` | src/main/java/com/luo/demo/validation/enums/RespCodeEnum.java:24-29 | `valueOf(c)` returns a constant whose code is `c` and no constant of lower ordinal has that code; it returns null exactly when no constant has code `c` (always for a null argument) |
| `RespCodes.RespCodeTable.ValueOfGetCode` | src/main/java/com/luo/demo/validation/enums/RespCodeEnum.java:24-29 | round trip: while the codes are distinct, `valueOf(e.getCode()) == e` |
| `RespCodes.RespCodeTable.SetCode` | src/main/java/com/luo/demo/validation/enums/RespCodeEnum.java:35-37 | changes this constant's code only. Descriptions and other codes are unchanged. Distinctness survives exactly when no other constant already has the new code |
| `RespCodes.RespCodeTable.SetDesc` | src/main/java/com/luo/demo/validation/enums/RespCodeEnum.java:43-45 | changes this constant's description only |
| `Results.Blank` | src/main/java/com/luo/demo/validation/domain/result/CommonResult.java:21-22 | the envelope `CommonResult()` builds: every field null. No contract of its own; `CommonResult.constructor` and `ConstructorsNeverFillDataAndRows` state its use |
| `Results.Coded` | src/main/java/com/luo/demo/validation/domain/result/CommonResult.java:24-26 | the envelope `CommonResult(respCode)` builds: only the code set. No contract of its own; `CommonResult.FromCode` and the factories state its use |
| `Results.WithData` | src/main/java/com/luo/demo/validation/domain/result/CommonResult.java:28-31 | the envelope `CommonResult(respCode, data)` builds, chaining through `Coded`. No contract of its own; `CommonResult.FromData` states its use |
| `Results.WithDataAndMsg` | src/main/java/com/luo/demo/validation/domain/result/CommonResult.java:33-36 | the envelope `CommonResult(respCode, data, msg)` builds, chaining through `WithData`. No contract of its own; `CommonResult.FromDataAndMsg` states its use |
| `Results.WithRows` | src/main/java/com/luo/demo/validation/domain/result/CommonResult.java:38-42 | the envelope `CommonResult(respCode, rows, total)` builds, chaining through `Coded`. No contract of its own; `CommonResult.FromRows` states its use |
| `Results.ConstructorsNeverFillDataAndRows` | src/main/java/com/luo/demo/validation/domain/result/CommonResult.java:21-42 | none of the five constructors populates both `data` and `rows` |
| `Results.Success` | src/main/java/com/luo/demo/validation/domain/result/CommonResult.java:45-47 | `success()`: code 100; data, rows, msg and total null |
| `Results.SuccessMsg` | src/main/java/com/luo/demo/validation/domain/result/CommonResult.java:49-51 | `success(msg)`: code 100 with the given msg; data, rows and total null |
| `Results.SuccessData` | src/main/java/com/luo/demo/validation/domain/result/CommonResult.java:53-55 | `successData(d)`: code 100 with data = d; rows, msg and total null |
| `Results.SuccessRows` | src/main/java/com/luo/demo/validation/domain/result/CommonResult.java:57-59 | `successRows(rows, total)`: code 100 with rows and total as given; data and msg null |
| `Results.FailedMsg` | src/main/java/com/luo/demo/validation/domain/result/CommonResult.java:61-63 | `failed(msg)`: code 200 with the given msg; data, rows and total null |
| `Results.Failed` | src/main/java/com/luo/demo/validation/domain/result/CommonResult.java:65-67 | `failed()` equals `failed(null)`: code 200, every other field null |
| `Results.RespWithMsg` | src/main/java/com/luo/demo/validation/domain/result/CommonResult.java:69-71 | `respWith(code, msg)` sets only the code and the msg |
| `Results.RespWith` | src/main/java/com/luo/demo/validation/domain/result/CommonResult.java:73-75 | `respWith(code)` equals `respWith(code, null)`: only the code is set |
| `Results.SuccessIsSuccessWithNullMsg` | src/main/java/com/luo/demo/validation/domain/result/CommonResult.java:45-51 | `success()` and `success(null)` build the same envelope |
| `Results.CommonResult.constructor` | src/main/java/com/luo/demo/validation/domain/result/CommonResult.java:21-22 | a new result has every field null |
| `Results.CommonResult.FromCode` | src/main/java/com/luo/demo/validation/domain/result/CommonResult.java:24-26 | only the code is set |
| `Results.CommonResult.FromData` | src/main/java/com/luo/demo/validation/domain/result/CommonResult.java:28-31 | the code and the data are set, nothing else |
| `Results.CommonResult.FromDataAndMsg` | src/main/java/com/luo/demo/validation/domain/result/CommonResult.java:33-36 | the code, the data and the msg are set; rows and total are null |
| `Results.CommonResult.FromRows` | src/main/java/com/luo/demo/validation/domain/result/CommonResult.java:38-42 | the code, the rows and the total are set; data and msg are null |
| `Results.CommonResult.SetRespCode` | src/main/java/com/luo/demo/validation/domain/result/CommonResult.java:81-83 | the body changes in `respCode` only |
| `Results.CommonResult.SetData` | src/main/java/com/luo/demo/validation/domain/result/CommonResult.java:89-91 | the body changes in `data` only |
| `Results.CommonResult.SetRows` | src/main/java/com/luo/demo/validation/domain/result/CommonResult.java:97-99 | the body changes in `rows` only |
| `Results.CommonResult.SetMsg` | src/main/java/com/luo/demo/validation/domain/result/CommonResult.java:105-107 | the body changes in `msg` only |
| `Results.CommonResult.SetTotal` | src/main/java/com/luo/demo/validation/domain/result/CommonResult.java:113-115 | the body changes in `total` only |
| `AdviceHandler.Text` | src/main/java/com/luo/demo/validation/controller/ControllerAdviceHandler.java:128-129 | a null default message is joined as the text `null`; any other message is joined as itself |
| `AdviceHandler.ConcatPiecesIsJoinThenComma` | src/main/java/com/luo/demo/validation/controller/ControllerAdviceHandler.java:127-129 | for one or more entries, concatenating `label, ": ", message, ", "` per entry gives the `", "`-join of the `label: message` segments followed by one `", "` |
| `AdviceHandler.Concat` | src/main/java/com/luo/demo/validation/controller/ControllerAdviceHandler.java:129 | `Collectors.joining()` with no separator: plain concatenation in stream order. `ConcatAppend` proves it distributes over `+` |
| `AdviceHandler.ConcatAppend` | src/main/java/com/luo/demo/validation/controller/ControllerAdviceHandler.java:129 | concatenating two piece lists joined together equals concatenating each and joining the results |
| `AdviceHandler.Pieces` | src/main/java/com/luo/demo/validation/controller/ControllerAdviceHandler.java:128 | the `flatMap` to `label, ": ", message, ", "`: four pieces per entry; `ConcatPiecesIsJoinThenComma` states what they join to |
| `AdviceHandler.FieldEntries` | src/main/java/com/luo/demo/validation/controller/ControllerAdviceHandler.java:127-128 | one entry per field error, in list order, carrying its field and its (possibly null) default message rendered by `Text` |
| `AdviceHandler.JoinAndStrip` | src/main/java/com/luo/demo/validation/controller/ControllerAdviceHandler.java:127-130 | after cutting the last separator, one or more entries give exactly the `", "`-join of their segments in order, with no leading or trailing separator. No entries make `substring(0, -2)` throw |
| `AdviceHandler.ConvertFieldErrors` | src/main/java/com/luo/demo/validation/controller/ControllerAdviceHandler.java:124-132 | null when the setting is off or the list is null. Otherwise a non-empty list gives the `", "`-join of `field: defaultMessage` in list order, and an empty list throws `StringIndexOutOfBounds(0, -2, 0)` |
| `AdviceHandler.LastIndexOf` | src/main/java/com/luo/demo/validation/controller/ControllerAdviceHandler.java:146 | `lastIndexOf` is -1 exactly when the character is absent. Otherwise it is an index holding the character, and no later index holds it |
| `AdviceHandler.Label` | src/main/java/com/luo/demo/validation/controller/ControllerAdviceHandler.java:145-146 | the label is a suffix of the path with no dot in it, preceded by nothing or by a dot. It is the whole path when the path has no dot |
| `AdviceHandler.ViolationEntries` | src/main/java/com/luo/demo/validation/controller/ControllerAdviceHandler.java:144-148 | one entry per violation, in iteration order, labelled with the tail of its property path and carrying its message |
| `AdviceHandler.ConvertConstraintViolations` | src/main/java/com/luo/demo/validation/controller/ControllerAdviceHandler.java:140-153 | null when the setting is off or the set is null. Otherwise a non-empty set gives the `", "`-join of `label: message` in iteration order, and an empty set throws |
| `AdviceHandler.ParamInvalid` | src/main/java/com/luo/demo/validation/controller/ControllerAdviceHandler.java:60 | a converted text becomes `respWith(101, text)`; a throw from the conversion propagates |
| `AdviceHandler.HandleMethodArgumentNotValid` | src/main/java/com/luo/demo/validation/controller/ControllerAdviceHandler.java:55-63 | answers code 101 carrying the converted field errors, and nothing else; when the conversion throws, the same exception escapes the handler |
| `AdviceHandler.HandleBind` | src/main/java/com/luo/demo/validation/controller/ControllerAdviceHandler.java:72-80 | answers code 101 carrying the converted field errors, and nothing else; when the conversion throws, the same exception escapes the handler |
| `AdviceHandler.HandleConstraintViolation` | src/main/java/com/luo/demo/validation/controller/ControllerAdviceHandler.java:91-99 | answers code 101 carrying the converted violations, and nothing else; when the conversion throws, the same exception escapes the handler |
| `AdviceHandler.HandleException` | src/main/java/com/luo/demo/validation/controller/ControllerAdviceHandler.java:108-116 | the catch-all answers code 200 with msg, data, rows and total all null |
| `AdviceHandler.Advise` | src/main/java/com/luo/demo/validation/controller/ControllerAdviceHandler.java:55-116 | any other throwable gives `failed()`. A validation exception that is answered gets code 101 with no payload. With the setting off, it gets code 101 with a null msg, whatever the number of errors. With the setting on: a null list gives code 101 with a null msg; a non-empty list gives code 101 with the `", "`-join of its `label: message` segments; an empty list throws `StringIndexOutOfBounds(0, -2, 0)` |
| `AdviceHandler.SingleFieldError` | src/main/java/com/luo/demo/validation/controller/ControllerAdviceHandler.java:127-130 | a single field error yields exactly `field: message`, with no comma |
| `AdviceHandler.TwoFieldErrors` | src/main/java/com/luo/demo/validation/controller/ControllerAdviceHandler.java:127-130 | two field errors yield `f1: m1, f2: m2`, in list order |
| `AdviceHandler.SingleViolation` | src/main/java/com/luo/demo/validation/controller/ControllerAdviceHandler.java:141-151 | a single violation yields exactly `label: message`, the label being the last segment of its path |
| `AdviceHandler.EmptyListEscapesTheAdvice` | src/main/java/com/luo/demo/validation/controller/ControllerAdviceHandler.java:130 | with the setting on, an empty field-error list or violation set makes all three validation handlers throw `StringIndexOutOfBounds(0, -2, 0)` |
| `AdviceHandler.ResponseCodes` | src/main/java/com/luo/demo/validation/controller/ControllerAdviceHandler.java:60 | every answer carries 101 for the three validation exceptions and 200 for any other. The msg is null for the catch-all, or when the setting is off |
| `Patterns.DigitRunIff` | src/main/java/com/luo/demo/validation/constraints/PhoneNo.java:44 | `\d{min,max}` matched against a whole string accepts exactly the all-ASCII-digit strings whose length lies between the bounds |
| `Patterns.DigitRun` | src/main/java/com/luo/demo/validation/constraints/PhoneNo.java:44 | `\d{min,max}` matched against a whole string, one digit at a time. `DigitRunIff` states what it accepts |
| `Patterns.Violations` | src/main/java/com/luo/demo/validation/constraints/PhoneNo.java:22-59 | null gives no violation. Otherwise there is no violation exactly when every repeated declaration matches (logical AND). There are never more violations than declarations |
| `Patterns.ViolationsAreFailingMessages` | src/main/java/com/luo/demo/validation/constraints/PhoneNo.java:31-35 | from any position on, the violations of a non-null value are exactly the messages of the declarations it fails, one each. The model lists them in declaration order; the source promises no order. The failing positions are `FailingPositions` |
| `Patterns.FailingPositionsEnumerate` | src/main/java/com/luo/demo/validation/constraints/PhoneNo.java:31-35 | `FailingPositions` lists every failing declaration and only those, in increasing order, so the violation list above is determined by the verdicts alone |
| `Patterns.ViolationsInDeclarationOrder` | src/main/java/com/luo/demo/validation/constraints/PhoneNo.java:31-35 | over all the declarations on an element: the violations are exactly the failing declarations' messages, one each, listed in the model's declaration order |
| `Patterns.SingleRule` | src/main/java/com/luo/demo/validation/constraints/PhoneNo.java:32 | one declaration reports no violation, or exactly one carrying its own message |
| `PhoneNumbers.Matches` | src/main/java/com/luo/demo/validation/constraints/PhoneNo.java:44 | the default pattern `^\d{8,11}$` as a whole-string match. `MatchesIff` states what it accepts |
| `PhoneNumbers.MatchesIff` | src/main/java/com/luo/demo/validation/constraints/PhoneNo.java:44 | the default pattern accepts a string exactly when it has 8 to 11 characters, all ASCII digits |
| `PhoneNumbers.LengthBoundsAreTight` | src/main/java/com/luo/demo/validation/constraints/PhoneNo.java:44 | 7 or 12 digits are rejected; 8 and 11 digits are accepted |
| `PhoneNumbers.NonDigitRejected` | src/main/java/com/luo/demo/validation/constraints/PhoneNo.java:44 | any non-digit character (`+`, `-`, a space, ...) causes rejection |
| `PhoneNumbers.DefaultDeclaration` | src/main/java/com/luo/demo/validation/constraints/PhoneNo.java:35 | null is valid; the empty string is rejected; a failure is exactly one violation with message `电话号码格式不正确` |
| `IdNumbers.Matches` | src/main/java/com/luo/demo/validation/constraints/IdNo.java:44 | the default ID pattern, group by group over the 18 positions. `MatchesIffLayout` states what it accepts |
| `IdNumbers.CenturyIff` | src/main/java/com/luo/demo/validation/constraints/IdNo.java:44 | `(18\|19\|20\|(3\d))` accepts exactly two digits whose value is 18, 19, 20 or 30-39 |
| `IdNumbers.MonthIff` | src/main/java/com/luo/demo/validation/constraints/IdNo.java:44 | `((0[1-9])\|(1[0-2]))` accepts exactly two digits whose value is 1-12 |
| `IdNumbers.DayIff` | src/main/java/com/luo/demo/validation/constraints/IdNo.java:44 | `(([0-2][1-9])\|10\|20\|30\|31)` accepts exactly two digits whose value is 1-31, so `00` and `32` are rejected |
| `IdNumbers.MatchesIffLayout` | src/main/java/com/luo/demo/validation/constraints/IdNo.java:44 | the default pattern accepts exactly the ID-number layout: length 18, first digit 1-9, digits through position 17, a century of 18/19/20/30-39, a month of 1-12, a day of 1-31, and a digit, `X` or `x` last |
| `IdNumbers.AcceptedShape` | src/main/java/com/luo/demo/validation/constraints/IdNo.java:44 | every accepted string has length 18, position 1 in 1-9, digits in positions 2-17, and a digit, `X` or `x` at position 18 |
| `IdNumbers.AcceptedCharacter` | src/main/java/com/luo/demo/validation/constraints/IdNo.java:44 | every character of an accepted string is a digit, `X` or `x` |
| `IdNumbers.ForeignCharacterRejected` | src/main/java/com/luo/demo/validation/constraints/IdNo.java:44 | replacing any position of an accepted string with a character outside every class (not a digit, `X` or `x`) makes it fail |
| `IdNumbers.NoCalendarCheck` | src/main/java/com/luo/demo/validation/constraints/IdNo.java:42-44 | month 02 with day 31 is accepted: there is no cross-field calendar check |
| `IdNumbers.CheckCharacterNotComputed` | src/main/java/com/luo/demo/validation/constraints/IdNo.java:42-44 | any digit, `X` or `x` may replace the last character of an accepted string: the check character is not computed |
| `IdNumbers.DefaultDeclaration` | src/main/java/com/luo/demo/validation/constraints/IdNo.java:35 | null is valid; a failure is exactly one violation with message `身份证号码格式不正确` |
| `DateFormats.IsWhitespace` | src/main/java/com/luo/demo/validation/constraints/DateFormatValidator.java:26 | the characters `Character.isWhitespace` accepts, which `hasText` skips. `ContainsText` and `HasText` state its use |
| `DateFormats.ContainsText` | src/main/java/com/luo/demo/validation/constraints/DateFormatValidator.java:26 | the scan finds text exactly when some character is not whitespace |
| `DateFormats.HasText` | src/main/java/com/luo/demo/validation/constraints/DateFormatValidator.java:26 | `hasText` holds exactly for a non-null string with a non-whitespace character |
| `DateFormats.DateFormatValidator.constructor` | src/main/java/com/luo/demo/validation/constraints/DateFormatValidator.java:17 | a new validator has a null format |
| `DateFormats.DateFormatValidator.Initialize` | src/main/java/com/luo/demo/validation/constraints/DateFormatValidator.java:20-22 | `initialize` stores the declaration's format. From then on, an input is valid exactly when it is blank or parses with that format |
| `DateFormats.DateFormatValidator.IsValid` | src/main/java/com/luo/demo/validation/constraints/DateFormatValidator.java:25-35 | null, empty and whitespace-only input is valid without parsing. Input with text is valid exactly when a format is stored and parses it. A null format or any parse failure gives false |
| `DateFormats.SameFormatSameVerdict` | src/main/java/com/luo/demo/validation/constraints/DateFormatValidator.java:25-35 | a frame fact: the verdict reads only the input, the stored format and the formatter. `isValid`'s context argument is unused, so the model omits it |

## Left out

- Spring MVC dispatch and `@ExceptionHandler`/`@ControllerAdvice` wiring are framework plumbing. Each handler is a function, and `Advise` routes by exception kind. `MethodArgumentNotValidException` also being a `BindException` is resolved by giving the kinds disjoint constructors. `HttpServletRequest`, logging and `@ResponseStatus` are left out too.
- What Spring does once a handler itself throws is not modelled. The model stops at `Thrown`.
- The `@Value` injection of `enableValidationMsg` is left out. The setting is the `enable` parameter.
- `Patterns.Violations`: the validation engine reports the violations of an element as an unordered set, and Spring copies that set into the field-error list in whatever order it iterates. The model lists them in declaration order by its own choice, so the order stated by `ViolationsAreFailingMessages` and `ViolationsInDeclarationOrder` is not a promise of the source.
- The iteration order of a `ConstraintViolationException`'s violation set is unspecified in the source. It is the order of the given sequence.
- `DateTimeFormatter.ofPattern(...).parse(...)` is a platform library whose accepted inputs depend on its resolver. It is the `parses` parameter of the validator, so which dates are valid (month 13, 30 February, ...) is not modelled.
- General Java regular-expression matching and the `flags()` overrides are left out. Only the two default patterns are written out. An overridden `regexp` is an arbitrary `matches` predicate of a `Rule`.
- `RespCodes.RespCodeTable.SetCode`: takes an `int`, so `setCode(null)` is not modelled. A null code makes `equalCode` on that constant throw `NullPointerException`. It can make `valueOf` throw too, when the stream reaches that constant before a match.
- The static factories and handlers use the declared codes 100, 101 and 200. They do not follow a code changed at run time by `setCode`.
- `RespCodeEnum`'s getters are `GetCode` and `GetDesc`. `CommonResult`'s getters are the fields of `CommonResult.Body()`. The `toString` methods and `DemoController.java`, `UserDto.java` and `OrgDto.java` are not part of this model. They are debugging output, HTTP endpoints with fixture data, and annotated records read by the validation engine.
- `DateFormat.java` and `DateTimeFormat.java` hold annotation metadata only. They appear as the constants `DefaultDateFormat` and `DefaultDateTimeFormat`.
- `DateFormats.IsWhitespace` follows current Unicode. Older Java releases also count U+180E as whitespace.
- The handlers return the raw `CommonResult` type and never set `data` or `rows`. Their response is `Envelope<()>`, with the unit type standing for the element type.
- Java `Integer` fields (`respCode`, `total`) are unbounded integers. The code does no arithmetic on them, so width does not matter.
