# jsonerror in Dafny

A verified model of the Go package `jsonerror`. The package has two parts:

- **The `JE` structured error.** It holds a numeric code, a short error label (the
  unexported field `error`), a message, an optional domain, a creation time and a
  `DisplayTime` flag. It has two renderings:
  - `Error()`: bracketed text, with the segments code, error, message, domain and
    time in that order.
  - `Render()`: a string map for a JSON renderer, with the keys `code` and, when
    non-empty, `error` and `message`.
- **`ErrorCollection`.** It collects errors in insertion order under a duplicate
  policy, folds a formatter over them to build one combined text, and has the
  emptiness test `IsNil`.

Files:

- `decimal.dfy` (module `Decimal`): the decimal text of an integer, which is what
  `%d` prints. A parser beside it proves that the text determines the number.
- `json_error.dfy` (module `JsonError`): the `JE` datatype and its operations.
  - `New` and `NewAndDisplayTime`.
  - `JE.Time`.
  - `JE.Fields`: the segments `Error()` shows, in order. `JE.Error` joins them
    with single spaces.
  - `FormatError`: builds the same text one segment at a time, as the source
    does.
  - `JE.Render`.
- `collection.dfy` (module `Collection`):
  - `Err<T> = Structured(JE) | Opaque(T)`: a JE (by value or by pointer) or
    any other error.
  - `IsDuplicate`: the duplicate rule.
  - `Added` and `AddedAll`: the entry list after one add or after a batch.
  - The `ErrorCollection` class: a field per source field, with methods
    `AddError`, `AddErrors`, `AddErrorCollection` and `Error`. Each method is
    proved against the matching specification function.
  - The default formatter and `IsNil`.
- `scenarios.dfy` (module `Scenarios`): worked uses of a JE and of a
  collection, checked against these contracts.

Modelling choices:

- A Go `nil` error is `None` of `Option<Err<T>>`.
- The duplicate policy is a plain `int`, as in the source. 0 allows duplicates.
  Every other value rejects them. Only 2 (`RejectDuplicates`) also compares
  timestamps.
  - So a value other than the three named constants behaves like
    `RejectDuplicatesIgnoreTimestamp`.
  - The source declares three named constants (jsonerror.go:13-17). The model
    follows the code's `!=` and `==` tests, which accept any other value too.
- Time is an integer count of nanoseconds since the Unix epoch. Construction
  takes the clock reading as a parameter `now`.
- `reflect.DeepEqual` on the non-JE errors is Dafny equality on `Opaque` values.
- A non-JE error's own `Error()` text is the parameter `describe: T -> string`.
- The formatter is `NilFormatter`, `DefaultFormatter`, or `Custom(step)`, where
  `step` is any pure function of (index, entry, text so far).
- The Go type is spelled `DuplicatationOptions`. Here it is `DuplicationOptions`.

## Model

| member | source | states |
|---|---|---|
| `Decimal.NatToString` | jsonerror.go:208 | `%d` text of a natural number: non-empty, all digits, a leading '0' only for zero itself |
| `Decimal.IntToString` | jsonerror.go:240 | the `%d` text of an integer is non-empty and starts with '-' exactly when the integer is negative |
| `Decimal.IntToStringShape` | jsonerror.go:240 | the text of an integer is '-' exactly when it is negative, then digits without a leading zero |
| `Decimal.IntRoundTrip` | jsonerror.go:240-248 | parsing the rendered code gives back the code |
| `Decimal.IntToStringInjective` | jsonerror.go:240-248 | distinct codes are rendered as distinct strings |
| `JsonError.New` | jsonerror.go:187-193 | code, label and message stored unchanged; domain is the first variadic argument or ""; time is the clock reading; time not displayed |
| `JsonError.NewAndDisplayTime` | jsonerror.go:197-203 | as `New`, with the time displayed |
| `JsonError.JE.Time` | jsonerror.go:229-232 | returns the stored creation time (`NewRoundTrip` ties it to the clock reading at construction) |
| `JsonError.NewRoundTrip` | jsonerror.go:229-232 | `Time()` returns the construction time; the rendered code parses back to the code; the label and message render unchanged |
| `JsonError.JE.Fields` | jsonerror.go:207-226 | the shown segments start with the code and hold at most five entries |
| `JsonError.JE.Error` | jsonerror.go:207-227 | the text always begins with "[code]: " followed by the decimal code |
| `JsonError.FieldsShown` | jsonerror.go:210-224 | error, message and domain are shown iff non-empty; time is shown iff DisplayTime is set; every shown segment is the code or one of those present fields with its own value |
| `JsonError.FieldsOrdered` | jsonerror.go:207-226 | the shown segments follow the fixed order code, error, message, domain, time, with no name twice |
| `JsonError.ErrorStartsWithCode` | jsonerror.go:207-226 | with no optional segment present, `Error()` is exactly "[code]: " and the code |
| `JsonError.FormatError` | jsonerror.go:207-227 | the step-by-step string building equals the space-joined "[name]: value" segments of `Fields` |
| `JsonError.JE.Render` | jsonerror.go:236-251 | "code" maps to the decimal code; "error" present iff the label is non-empty, "message" iff the message is non-empty, each with its value; no other key |
| `JsonError.RenderAgreesWithFields` | jsonerror.go:238-248 | the map is the text segments without domain and time: same names, same values, both ways |
| `Collection.Added` | jsonerror.go:48-104 | nil leaves the entries unchanged; otherwise the candidate is appended exactly when the policy allows duplicates or no entry duplicates it, and nothing else changes |
| `Collection.IsDuplicate` | jsonerror.go:56-100 | an error duplicates itself; a duplicate is of the same kind (JE or not); duplicate non-JEs are equal; duplicate JEs agree on code, domain, label and message |
| `Collection.DuplicateRule` | jsonerror.go:56-100 | JE vs non-JE: never a duplicate; two non-JEs: duplicates iff equal; two JEs: iff code, domain, label and message agree, plus equal times under RejectDuplicates; symmetric and reflexive |
| `Collection.TimestampPolicies` | jsonerror.go:84-93 | after any entries and a JE `a`, a JE `b` with the same code, domain, label and message is dropped under IgnoreTimestamp; under RejectDuplicates dropped when the times are equal, and appended when they differ and no earlier entry duplicates it; always appended under AllowDuplicates |
| `Collection.AddedIdempotent` | jsonerror.go:54-103 | under a rejecting policy, adding the same error twice equals adding it once |
| `Collection.AddedKeepsDuplicateFree` | jsonerror.go:54-103 | under a rejecting policy, one add keeps the entries pairwise non-duplicate |
| `Collection.AddedAllKeepsDuplicateFree` | jsonerror.go:117-135 | under a rejecting policy, batches keep the entries pairwise non-duplicate |
| `Collection.AddedAll` | jsonerror.go:121-123 | a batch keeps every earlier entry as a prefix and adds at most one entry per item |
| `Collection.AddedAllAppend` | jsonerror.go:117-124 | adding a + b in one batch equals adding a, then adding b |
| `Collection.AllowKeepsEverything` | jsonerror.go:54 | under AllowDuplicates, a batch appends exactly its non-nil errors, in order |
| `Collection.MergeIntoEmpty` | jsonerror.go:128-135 | merging a collection into an empty AllowDuplicates one copies its entries in order |
| `Collection.ErrorCollection.constructor` | jsonerror.go:37-45 | empty entries; default formatter; policy is the first argument, or AllowDuplicates when there is none |
| `Collection.ErrorCollection.AddError` | jsonerror.go:48-113 | the scan-then-append leaves exactly `Added(policy, old entries, err)` |
| `Collection.ErrorCollection.AddErrors` | jsonerror.go:117-124 | the entries become the left fold of `Added` over the arguments, in order |
| `Collection.ErrorCollection.AddErrorCollection` | jsonerror.go:128-135 | the entries become the left fold of `Added` over the source's entries at call time, under the receiver's policy (the source may be the receiver) |
| `Collection.ErrorCollection.Error` | jsonerror.go:139-153 | "" with no formatter; otherwise the formatter folded over the entries in order, starting from "" |
| `Collection.DefaultListing` | jsonerror.go:19-23 | with the default formatter, the text is the concatenation of "\n" + index + ":" + entry text over the entries, in insertion order |
| `Collection.Line` | jsonerror.go:21-23 | one default line starts with a newline and ends with the entry's own text, with room for the index and ':' between |
| `Collection.Step` | jsonerror.go:21-23 | the default formatter keeps the text so far as a strict prefix and appends a line starting with a newline |
| `Collection.Accumulated` | jsonerror.go:145-151 | with the default formatter, the text after n entries is "" iff n is 0 |
| `Collection.Formatted` | jsonerror.go:139-153 | "" when there is no formatter; with the default formatter, "" iff there are no entries |
| `Collection.IsNil` | jsonerror.go:157-172 | true for nil; false for any other non-collection error; for a collection, true iff it has no entries |
| `Collection.IsNilMeaning` | jsonerror.go:139-172 | for a collection with the default formatter, `IsNil` holds iff its text is ""; without a formatter the text is "" either way |

## Left out

- Locking. The `sync.RWMutex` calls in `AddError`, `AddErrors`, `AddErrorCollection` and `Error` are not modelled. Each method is one atomic sequential step. So `addError` and `AddError` are a single method.
- The data race when the source of `AddErrorCollection` is mutated concurrently. This is concurrency, which the model does not cover.
- The clock. `time.Now().UTC()` is the parameter `now`. Time zones and monotonic readings are not modelled. `time.Equal` is integer equality on nanoseconds.
- Go's formatting. `fmt.Sprintf` is modelled only for `%d` on integers (module `Decimal`) and for plain string concatenation.
- Go's integer width. Codes, times and indices are unbounded integers. `%d` prints a 64-bit `int` the same way, so nothing changes within range.
- User-supplied formatters. They are modelled only as pure functions of (index, entry, text so far). A formatter that panics or has other side effects is not modelled.
- Typed nil pointers, which are Go runtime artefacts:
  - the panic of `IsNil` on a typed-nil `*ErrorCollection`;
  - a typed-nil `*JE`, which the source compares by deep equality instead of field by field;
  - a nil `*ErrorCollection` passed to `AddErrorCollection`.
- `nil` values written straight into the exported `Errors` slice. Entries are never nil in the model.
- Opaque errors are compared by Dafny equality, which is reflexive. `reflect.DeepEqual` is not reflexive on values holding NaN or non-nil functions.
- A `*JE` entry aliases the caller's struct, so the exported `Code`, `Domain` and `DisplayTime` can change after insertion. That affects later duplicate checks and the `Error()` text. The model stores JE values.
- Go strings are bytes and Dafny strings are characters, so labels that are not valid UTF-8 cannot be represented. No modelled operation depends on this: only concatenation, equality and emptiness are used.
- The JSON render middleware that consumes `Render()`. It is external to the package.
