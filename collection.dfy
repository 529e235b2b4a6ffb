/** `ErrorCollection` of jsonerror.go: an ordered list of errors that grows by
    appending, with an optional duplicate-rejection rule, a pluggable formatter
    that folds the entries into one text, and the emptiness test `IsNil`.
    Each method is one atomic step (the read/write lock of the source only
    makes the steps atomic). */
module Collection {
  import opened Decimal
  import opened JsonError

  datatype Option<T> = None | Some(value: T)

  /** An error value: a JE (by value or by pointer: both are compared field
      by field) or any other error, compared by deep equality. A Go `nil`
      error is `None` of `Option<Err<T>>`. */
  datatype Err<T> = Structured(je: JE) | Opaque(value: T)

  /** The duplicate policy is a plain Go `int`: 0 allows duplicates, every
      other value rejects them, and only 2 also compares timestamps. */
  type DuplicationOptions = int

  const AllowDuplicates: DuplicationOptions := 0
  const RejectDuplicatesIgnoreTimestamp: DuplicationOptions := 1
  const RejectDuplicates: DuplicationOptions := 2

  /** The four fields compared between two JE values (the display flag and
      the time are not among them). */
  predicate SameFields(a: JE, b: JE) {
    a.code == b.code && a.domain == b.domain && a.error == b.error && a.message == b.message
  }

  /** Whether `candidate` duplicates the already `contained` entry. */
  function IsDuplicate<T(==)>(opt: DuplicationOptions, contained: Err<T>, candidate: Err<T>): (r: bool)
    ensures contained == candidate ==> r
    ensures r ==> contained.Structured? == candidate.Structured?
    ensures r && contained.Opaque? ==> contained == candidate
    ensures r && contained.Structured? ==> SameFields(contained.je, candidate.je)
  {
    if candidate.Structured? && contained.Structured? then
      SameFields(candidate.je, contained.je) &&
      (opt == RejectDuplicates ==> candidate.je.time == contained.je.time)
    else
      contained == candidate
  }

  /** Some entry of `entries` is a duplicate of `e`. */
  predicate HasDuplicate<T(==)>(opt: DuplicationOptions, entries: seq<Err<T>>, e: Err<T>) {
    exists k :: 0 <= k < |entries| && IsDuplicate(opt, entries[k], e)
  }

  /** The entries after adding `err`: a nil error is ignored; a non-nil one is
      appended unless the policy rejects duplicates and some entry is one. */
  function Added<T(==)>(opt: DuplicationOptions, entries: seq<Err<T>>, err: Option<Err<T>>): (r: seq<Err<T>>)
    ensures err.None? ==> r == entries
    ensures err.Some? ==> r == entries || r == entries + [err.value]
    ensures err.Some? ==>
              (r == entries + [err.value] <==> opt == AllowDuplicates || !HasDuplicate(opt, entries, err.value))
  {
    match err
    case None => entries
    case Some(e) =>
      if opt != AllowDuplicates && HasDuplicate(opt, entries, e) then entries else entries + [e]
  }

  /** Adding each of `items` in turn, later ones checked against the
      entries accepted before them. */
  function AddedAll<T(==)>(opt: DuplicationOptions, entries: seq<Err<T>>, items: seq<Option<Err<T>>>): (r: seq<Err<T>>)
    ensures |entries| <= |r| <= |entries| + |items|
    ensures r[..|entries|] == entries
    decreases |items|
  {
    if items == [] then entries else AddedAll(opt, Added(opt, entries, items[0]), items[1..])
  }

  /** The non-nil errors of `items`, in order. */
  function NonNil<T>(items: seq<Option<Err<T>>>): seq<Err<T>> {
    if items == [] then []
    else (if items[0].Some? then [items[0].value] else []) + NonNil(items[1..])
  }

  /** The entries of another collection, as arguments to add. */
  function AsItems<T>(entries: seq<Err<T>>): (items: seq<Option<Err<T>>>)
    ensures |items| == |entries|
    ensures forall i :: 0 <= i < |entries| ==> items[i] == Some(entries[i])
  {
    seq(|entries|, i requires 0 <= i < |entries| => Some(entries[i]))
  }

  /** The formatter of a collection: none (Go `nil`), `DefaultErrorFormatter`,
      or any other function of (index, entry, text so far). */
  datatype Formatter<!T> = NilFormatter | DefaultFormatter | Custom(step: (nat, Err<T>, string) -> string)

  /** The text of one entry: `JE.Error` for a JE, the error's own text
      (given by `describe`) for any other error. */
  function Text<T>(e: Err<T>, describe: T -> string): string {
    match e
    case Structured(j) => j.Error()
    case Opaque(v) => describe(v)
  }

  /** What `DefaultErrorFormatter` appends for entry `e` at index `i`. */
  function Line<T>(i: nat, e: Err<T>, describe: T -> string): (r: string)
    ensures |r| > |Text(e, describe)| + 2 && r[0] == '\n'
    ensures r[|r| - |Text(e, describe)|..] == Text(e, describe)
  {
    "\n" + IntToString(i) + ":" + Text(e, describe)
  }

  /** One call of a non-nil formatter on the text so far. */
  function Step<T>(f: Formatter<T>, i: nat, e: Err<T>, describe: T -> string, acc: string): (r: string)
    requires !f.NilFormatter?
    ensures f.DefaultFormatter? ==> acc < r && r[|acc|] == '\n'
  {
    match f
    case DefaultFormatter => acc + Line(i, e, describe)
    case Custom(step) => step(i, e, acc)
  }

  /** The text after the formatter has run on the first `n` entries. */
  function Accumulated<T>(f: Formatter<T>, entries: seq<Err<T>>, n: nat, describe: T -> string): (r: string)
    requires !f.NilFormatter? && n <= |entries|
    ensures f.DefaultFormatter? ==> (r == "" <==> n == 0)
  {
    if n == 0 then "" else Step(f, n - 1, entries[n - 1], describe, Accumulated(f, entries, n - 1, describe))
  }

  /** The combined text of a collection: "" without a formatter, else the
      formatter folded over every entry in order, from "". */
  function Formatted<T>(f: Formatter<T>, entries: seq<Err<T>>, describe: T -> string): (r: string)
    ensures f.NilFormatter? ==> r == ""
    ensures f.DefaultFormatter? ==> (r == "" <==> entries == [])
  {
    if f.NilFormatter? then "" else Accumulated(f, entries, |entries|, describe)
  }

  /** `line(from, xs[0]) + line(from + 1, xs[1]) + ...`: one piece per
      element, numbered from `from`. */
  function Concat<X>(xs: seq<X>, from: nat, line: (nat, X) -> string): string {
    if xs == [] then "" else line(from, xs[0]) + Concat(xs[1..], from + 1, line)
  }

  /** The text the default formatter is meant to give: one line per entry,
      "\n<index>:<text of the entry>", numbered from 0. */
  function Lines<T>(entries: seq<Err<T>>, describe: T -> string): string {
    Concat(entries, 0, (i, e) => Line(i, e, describe))
  }

  class ErrorCollection<T(==)> {
    var duplication: DuplicationOptions
    var errors: seq<Err<T>>
    var formatter: Formatter<T>

    /** `NewErrorCollection`: empty, with the default formatter and the
        first given policy (AllowDuplicates when none is given). */
    constructor (dup: seq<DuplicationOptions>)
      ensures errors == [] && formatter.DefaultFormatter?
      ensures duplication == (if |dup| != 0 then dup[0] else AllowDuplicates)
    {
      errors := [];
      formatter := DefaultFormatter;
      duplication := if |dup| != 0 then dup[0] else AllowDuplicates;
    }

    /** `AddError` (and the unlocked `addError` it calls): ignore nil; under a
        rejecting policy scan the entries and stop at the first duplicate;
        otherwise append. */
    method AddError(err: Option<Err<T>>)
      modifies this`errors
      ensures errors == Added(duplication, old(errors), err)
    {
      if err.None? {
        return;
      }
      var e := err.value;
      if duplication != AllowDuplicates {
        var i := 0;
        while i < |errors|
          invariant 0 <= i <= |errors|
          invariant forall k :: 0 <= k < i ==> !IsDuplicate(duplication, errors[k], e)
        {
          if IsDuplicate(duplication, errors[i], e) {
            return;
          }
          i := i + 1;
        }
      }
      errors := errors + [e];
    }

    /** `AddErrors`: each argument in order, under the receiver's policy. */
    method AddErrors(errs: seq<Option<Err<T>>>)
      modifies this`errors
      ensures errors == AddedAll(duplication, old(errors), errs)
    {
      for i := 0 to |errs|
        invariant errors == AddedAll(duplication, old(errors), errs[..i])
      {
        AddedAllSnoc(duplication, old(errors), errs[..i], errs[i]);
        assert errs[..i + 1] == errs[..i] + [errs[i]];
        AddError(errs[i]);
      }
      assert errs[..|errs|] == errs;
    }

    /** `AddErrorCollection`: every entry `other` holds when the call starts,
        in order, under the receiver's policy (`other` may be the receiver). */
    method AddErrorCollection(other: ErrorCollection<T>)
      modifies this`errors
      ensures errors == AddedAll(duplication, old(errors), AsItems(old(other.errors)))
    {
      var source := other.errors;
      ghost var items := AsItems(source);
      for i := 0 to |source|
        invariant errors == AddedAll(duplication, old(errors), items[..i])
      {
        AddedAllSnoc(duplication, old(errors), items[..i], items[i]);
        assert items[..i + 1] == items[..i] + [items[i]];
        AddError(Some(source[i]));
      }
      assert items[..|source|] == items;
    }

    /** `Error`: the formatter folded over the entries, "" without one. */
    method Error(describe: T -> string) returns (str: string)
      ensures str == Formatted(formatter, errors, describe)
    {
      if formatter.NilFormatter? {
        return "";
      }
      str := "";
      for i := 0 to |errors|
        invariant str == Accumulated(formatter, errors, i, describe)
      {
        str := Step(formatter, i, errors[i], describe, str);
      }
    }
  }

  /** What `IsNil` may be given: nil, an `*ErrorCollection`, or another error. */
  datatype ErrorValue<T(==)> = NilError | CollectionError(collection: ErrorCollection<T>) | OtherError(err: Err<T>)

  /** `IsNil`: true for nil and for a collection without entries. */
  function IsNil<T(==)>(v: ErrorValue<T>): (r: bool)
    reads if v.CollectionError? then {v.collection} else {}
    ensures v.NilError? ==> r
    ensures v.OtherError? ==> !r
    ensures v.CollectionError? ==> (r <==> v.collection.errors == [])
  {
    match v
    case NilError => true
    case CollectionError(c) => |c.errors| == 0
    case OtherError(_) => false
  }

  // ---------------------------------------------------------------------
  // Properties of the duplicate rule

  /** Adding one item after a batch is the batch one longer. */
  lemma {:induction false} AddedAllSnoc<T>(opt: DuplicationOptions, entries: seq<Err<T>>,
                                               items: seq<Option<Err<T>>>, item: Option<Err<T>>)
    ensures AddedAll(opt, entries, items + [item]) == Added(opt, AddedAll(opt, entries, items), item)
    decreases |items|
  {
    if items == [] {
      assert ([] + [item])[1..] == [];
    } else {
      assert (items + [item])[1..] == items[1..] + [item];
      AddedAllSnoc(opt, Added(opt, entries, items[0]), items[1..], item);
    }
  }

  /** A batch of `a` then `b` is the batch `a` followed by the batch `b`:
      `AddErrors(a + b)` is `AddErrors(a); AddErrors(b)`. */
  lemma {:induction false} AddedAllAppend<T>(opt: DuplicationOptions, entries: seq<Err<T>>,
                                             a: seq<Option<Err<T>>>, b: seq<Option<Err<T>>>)
    ensures AddedAll(opt, entries, a + b) == AddedAll(opt, AddedAll(opt, entries, a), b)
    decreases |a|
  {
    if a == [] {
      assert [] + b == b;
    } else {
      assert (a + b)[1..] == a[1..] + b;
      AddedAllAppend(opt, Added(opt, entries, a[0]), a[1..], b);
    }
  }

  /** Under AllowDuplicates nothing is dropped but nil: a batch appends
      exactly its non-nil errors, in order. */
  lemma {:induction false} AllowKeepsEverything<T>(entries: seq<Err<T>>, items: seq<Option<Err<T>>>)
    ensures AddedAll(AllowDuplicates, entries, items) == entries + NonNil(items)
    decreases |items|
  {
    if items != [] {
      AllowKeepsEverything(Added(AllowDuplicates, entries, items[0]), items[1..]);
    }
  }

  /** The entries of a collection, passed as a batch, are all non-nil. */
  lemma {:induction false} NonNilAsItems<T>(entries: seq<Err<T>>)
    ensures NonNil(AsItems(entries)) == entries
    decreases |entries|
  {
    if entries != [] {
      assert AsItems(entries)[1..] == AsItems(entries[1..]);
      NonNilAsItems(entries[1..]);
    }
  }

  /** Merging a collection into an empty AllowDuplicates collection copies
      its entries, in order. */
  lemma MergeIntoEmpty<T>(source: seq<Err<T>>)
    ensures AddedAll(AllowDuplicates, [], AsItems(source)) == source
  {
    AllowKeepsEverything([], AsItems(source));
    NonNilAsItems(source);
  }

  /** No entry duplicates an earlier one. */
  predicate DuplicateFree<T(==)>(opt: DuplicationOptions, entries: seq<Err<T>>) {
    forall i, k :: 0 <= i < k < |entries| ==> !IsDuplicate(opt, entries[i], entries[k])
  }

  /** Under a rejecting policy, adding one error keeps a duplicate-free list
      duplicate-free. */
  lemma AddedKeepsDuplicateFree<T>(opt: DuplicationOptions, entries: seq<Err<T>>, err: Option<Err<T>>)
    requires opt != AllowDuplicates && DuplicateFree(opt, entries)
    ensures DuplicateFree(opt, Added(opt, entries, err))
  {
    var r := Added(opt, entries, err);
    if r != entries {
      forall i, k | 0 <= i < k < |r|
        ensures !IsDuplicate(opt, r[i], r[k])
      {
        if k == |entries| {
          assert !IsDuplicate(opt, entries[i], err.value);
        }
      }
    }
  }

  /** Under a rejecting policy, a collection filled only through these
      operations never holds two entries that duplicate each other. */
  lemma {:induction false} AddedAllKeepsDuplicateFree<T>(opt: DuplicationOptions, entries: seq<Err<T>>,
                                                         items: seq<Option<Err<T>>>)
    requires opt != AllowDuplicates && DuplicateFree(opt, entries)
    ensures DuplicateFree(opt, AddedAll(opt, entries, items))
    decreases |items|
  {
    if items != [] {
      AddedKeepsDuplicateFree(opt, entries, items[0]);
      AddedAllKeepsDuplicateFree(opt, Added(opt, entries, items[0]), items[1..]);
    }
  }

  /** Under a rejecting policy, adding the same error twice is adding it once. */
  lemma AddedIdempotent<T>(opt: DuplicationOptions, entries: seq<Err<T>>, err: Option<Err<T>>)
    requires opt != AllowDuplicates
    ensures Added(opt, Added(opt, entries, err), err) == Added(opt, entries, err)
  {
    var r := Added(opt, entries, err);
    if err.Some? && r != entries {
      assert IsDuplicate(opt, r[|entries|], err.value);
    }
  }

  /** The duplicate rule case by case: a JE and any other error are never
      duplicates; two other errors are duplicates iff equal; two JEs are
      duplicates iff code, domain, label and message agree, and under
      RejectDuplicates the times as well (the display flag never matters);
      the rule is symmetric and every error duplicates itself. */
  lemma DuplicateRule<T>(opt: DuplicationOptions, a: Err<T>, b: Err<T>)
    ensures a.Structured? && b.Opaque? ==> !IsDuplicate(opt, a, b) && !IsDuplicate(opt, b, a)
    ensures a.Opaque? && b.Opaque? ==> (IsDuplicate(opt, a, b) <==> a.value == b.value)
    ensures a.Structured? && b.Structured? && opt != RejectDuplicates ==>
              (IsDuplicate(opt, a, b) <==> SameFields(a.je, b.je))
    ensures a.Structured? && b.Structured? && opt == RejectDuplicates ==>
              (IsDuplicate(opt, a, b) <==> SameFields(a.je, b.je) && a.je.time == b.je.time)
    ensures IsDuplicate(opt, a, b) == IsDuplicate(opt, b, a)
    ensures IsDuplicate(opt, a, a)
  {
  }

  /** Two JEs that differ at most in their time (and display flag), the
      second added after the first: dropped under
      RejectDuplicatesIgnoreTimestamp; under RejectDuplicates dropped when the
      times are equal, and otherwise the scan moves past the first and the
      second is appended unless an earlier entry rejects it; always appended
      under AllowDuplicates. */
  lemma TimestampPolicies<T>(entries: seq<Err<T>>, a: JE, b: JE)
    requires SameFields(a, b)
    ensures Added(RejectDuplicatesIgnoreTimestamp, entries + [Structured(a)], Some(Structured(b)))
              == entries + [Structured(a)]
    ensures a.time == b.time ==>
              Added(RejectDuplicates, entries + [Structured(a)], Some(Structured(b))) == entries + [Structured(a)]
    ensures a.time != b.time && !HasDuplicate(RejectDuplicates, entries, Structured(b)) ==>
              Added(RejectDuplicates, entries + [Structured(a)], Some(Structured(b)))
                == entries + [Structured(a), Structured(b)]
    ensures Added(AllowDuplicates, entries + [Structured(a)], Some(Structured(b)))
              == entries + [Structured(a), Structured(b)]
  {
    var es := entries + [Structured(a)];
    assert IsDuplicate(RejectDuplicatesIgnoreTimestamp, es[|entries|], Structured(b));
    if a.time == b.time {
      assert IsDuplicate(RejectDuplicates, es[|entries|], Structured(b));
    } else if !HasDuplicate(RejectDuplicates, entries, Structured(b)) {
      forall k | 0 <= k < |es|
        ensures !IsDuplicate(RejectDuplicates, es[k], Structured(b))
      {
        if k < |entries| {
          assert es[k] == entries[k];
        }
      }
    }
  }

  // ---------------------------------------------------------------------
  // Properties of the combined text

  /** One more element adds one more piece, numbered after the others. */
  lemma {:induction false} ConcatSnoc<X>(xs: seq<X>, x: X, from: nat, line: (nat, X) -> string)
    ensures Concat(xs + [x], from, line) == Concat(xs, from, line) + line(from + |xs|, x)
    decreases |xs|
  {
    if xs == [] {
      assert ([] + [x])[1..] == [];
    } else {
      assert (xs + [x])[1..] == xs[1..] + [x];
      ConcatSnoc(xs[1..], x, from + 1, line);
    }
  }

  /** Appending the pieces of the first `n` elements one at a time to ""
      gives their concatenation. */
  lemma {:induction false} AppendedIsConcat<X>(xs: seq<X>, n: nat, line: (nat, X) -> string, acc: nat -> string)
    requires n <= |xs| && acc(0) == ""
    requires forall k :: 0 < k <= n ==> acc(k) == acc(k - 1) + line(k - 1, xs[k - 1])
    ensures acc(n) == Concat(xs[..n], 0, line)
    decreases n
  {
    if n > 0 {
      AppendedIsConcat(xs, n - 1, line, acc);
      ConcatSnoc(xs[..n - 1], xs[n - 1], 0, line);
      assert xs[..n - 1] + [xs[n - 1]] == xs[..n];
    }
  }

  /** With `DefaultErrorFormatter`, the combined text is "\n<i>:<text of entry i>"
      for every entry i, in insertion order; "" for no entries. */
  lemma DefaultListing<T>(entries: seq<Err<T>>, describe: T -> string)
    ensures Formatted(DefaultFormatter, entries, describe) == Lines(entries, describe)
  {
    var acc := (k: nat) => if k <= |entries| then Accumulated(DefaultFormatter, entries, k, describe) else "";
    AppendedIsConcat(entries, |entries|, (i, e) => Line(i, e, describe), acc);
    assert entries[..|entries|] == entries;
  }

  /** An empty collection counts as no error, and its combined text says
      so: with the default formatter `IsNil` holds exactly when the text is
      empty; without a formatter the text is empty either way. */
  lemma IsNilMeaning<T>(v: ErrorValue<T>, describe: T -> string)
    requires v.CollectionError?
    ensures v.collection.formatter.DefaultFormatter? ==>
              (IsNil(v) <==> Formatted(v.collection.formatter, v.collection.errors, describe) == "")
    ensures v.collection.formatter.NilFormatter? ==>
              Formatted(v.collection.formatter, v.collection.errors, describe) == ""
  {
  }
}
