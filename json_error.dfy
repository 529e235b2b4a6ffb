/** The structured error value `JE` of jsonerror.go: a numeric code, a short
    error label, a message, an optional domain and the creation time, with its
    two renderings, the bracketed text `Error()` and the string map `Render()`. */
module JsonError {
  import opened Decimal

  /** A JE value. `time` is the creation instant in nanoseconds since the Unix
      epoch (what `time.UnixNano()` reports); `error` is the short label. */
  datatype JE = JE(code: int, domain: string, error: string, message: string,
                   time: int, displayTime: bool)
  {
    /** The creation time, fixed when the value was built. */
    function Time(): (t: int)
      ensures t == time
    {
      time
    }

    /** The fields that `Error()` shows, in the order it shows them: the code
        always, then the label, the message and the domain when non-empty, then
        the time when `displayTime` is set. */
    function Fields(): (fs: seq<Field>)
      ensures |fs| >= 1 && fs[0] == Field(CodeField, IntToString(code))
      ensures |fs| <= 5
    {
      [Field(CodeField, IntToString(code))]
      + Optional(error != "", Field(ErrorField, error))
      + Optional(message != "", Field(MessageField, message))
      + Optional(domain != "", Field(DomainField, domain))
      + Optional(displayTime, Field(TimeField, IntToString(time)))
    }

    /** The text of the error: its fields, each as "[name]: value",
        separated by single spaces. */
    function Error(): (s: string)
      ensures "[code]: " + IntToString(code) <= s
    {
      assert Show(Field(CodeField, IntToString(code))) == "[code]: " + IntToString(code);
      JoinStartsWithFirst(Fields());
      Join(Fields())
    }

    /** The map handed to a JSON renderer: "code" always, "error" and
        "message" only when non-empty, never the domain or the time. */
    function Render(): (r: map<string, string>)
      ensures "code" in r && r["code"] == IntToString(code)
      ensures ("error" in r) <==> error != ""
      ensures "error" in r ==> r["error"] == error
      ensures ("message" in r) <==> message != ""
      ensures "message" in r ==> r["message"] == message
      ensures r.Keys <= {"code", "error", "message"}
    {
      if error == "" then
        if message == "" then
          map["code" := IntToString(code)]
        else
          map["code" := IntToString(code), "message" := message]
      else
        if message == "" then
          map["code" := IntToString(code), "error" := error]
        else
          map["code" := IntToString(code), "error" := error, "message" := message]
    }
  }

  /** The names of the segments of the text form, in the order shown. */
  datatype FieldName = CodeField | ErrorField | MessageField | DomainField | TimeField
  {
    /** The name as it appears between the brackets. */
    function Label(): string {
      match this
      case CodeField => "code"
      case ErrorField => "error"
      case MessageField => "message"
      case DomainField => "domain"
      case TimeField => "time"
    }

    /** Position in the fixed order code, error, message, domain, time. */
    function Rank(): nat {
      match this
      case CodeField => 0
      case ErrorField => 1
      case MessageField => 2
      case DomainField => 3
      case TimeField => 4
    }
  }

  /** One named segment of the text form. */
  datatype Field = Field(name: FieldName, value: string)

  function Optional(present: bool, f: Field): (fs: seq<Field>)
    ensures f in fs <==> present
    ensures forall g :: g in fs ==> g == f
    ensures |fs| <= 1
  {
    if present then [f] else []
  }

  function Show(f: Field): string {
    "[" + f.name.Label() + "]: " + f.value
  }

  /** The shown fields separated by single spaces. */
  function Join(fs: seq<Field>): string {
    if |fs| == 0 then ""
    else if |fs| == 1 then Show(fs[0])
    else Join(fs[..|fs| - 1]) + " " + Show(fs[|fs| - 1])
  }

  /** `New`: the code, label and message are stored unchanged, the domain is
      the first optional argument or "" when there is none, the time is `now`
      (the clock reading) and the time is not displayed. */
  function New(code: int, error: string, message: string, domain: seq<string>, now: int): (j: JE)
    ensures j.code == code && j.error == error && j.message == message
    ensures j.domain == (if |domain| != 0 then domain[0] else "")
    ensures j.Time() == now && !j.displayTime
  {
    var j := JE(code, "", error, message, now, false);
    if |domain| != 0 then j.(domain := domain[0]) else j
  }

  /** `NewAndDisplayTime`: as `New`, but the time is displayed. */
  function NewAndDisplayTime(code: int, error: string, message: string, domain: seq<string>, now: int): (j: JE)
    ensures j.code == code && j.error == error && j.message == message
    ensures j.domain == (if |domain| != 0 then domain[0] else "")
    ensures j.Time() == now && j.displayTime
  {
    var j := JE(code, "", error, message, now, true);
    if |domain| != 0 then j.(domain := domain[0]) else j
  }

  /** Builds the text of `j` the way `JE.Error` does, one optional segment
      after another. */
  method FormatError(j: JE) returns (finalString: string)
    ensures finalString == j.Error()
  {
    ghost var shown := [Field(CodeField, IntToString(j.code))];
    finalString := "[code]: " + IntToString(j.code);
    assert finalString == Join(shown);
    if j.error != "" {
      finalString := Append(finalString, shown, Field(ErrorField, j.error));
      shown := shown + [Field(ErrorField, j.error)];
    }
    assert shown == [Field(CodeField, IntToString(j.code))]
      + Optional(j.error != "", Field(ErrorField, j.error));
    if j.message != "" {
      finalString := Append(finalString, shown, Field(MessageField, j.message));
      shown := shown + [Field(MessageField, j.message)];
    }
    assert shown == [Field(CodeField, IntToString(j.code))]
      + Optional(j.error != "", Field(ErrorField, j.error))
      + Optional(j.message != "", Field(MessageField, j.message));
    if j.domain != "" {
      finalString := Append(finalString, shown, Field(DomainField, j.domain));
      shown := shown + [Field(DomainField, j.domain)];
    }
    assert shown == [Field(CodeField, IntToString(j.code))]
      + Optional(j.error != "", Field(ErrorField, j.error))
      + Optional(j.message != "", Field(MessageField, j.message))
      + Optional(j.domain != "", Field(DomainField, j.domain));
    if j.displayTime {
      finalString := Append(finalString, shown, Field(TimeField, IntToString(j.time)));
      shown := shown + [Field(TimeField, IntToString(j.time))];
    }
    assert shown == j.Fields();
  }

  /** One step of `FormatError`: the text so far followed by
      " [name]: value". */
  method Append(finalString: string, ghost shown: seq<Field>, f: Field) returns (s: string)
    requires |shown| >= 1 && finalString == Join(shown)
    ensures s == Join(shown + [f])
  {
    s := finalString + " [" + f.name.Label() + "]: " + f.value;
    JoinSnoc(shown, f);
  }

  /** Adding a field adds one space and that field's text at the end. */
  lemma JoinSnoc(fs: seq<Field>, f: Field)
    requires |fs| >= 1
    ensures Join(fs + [f]) == Join(fs) + " " + Show(f)
  {
    assert (fs + [f])[..|fs|] == fs;
  }

  /** Each optional field is shown exactly when it is present, and nothing
      else is shown: every segment is the code or a present optional field
      with its own value. */
  lemma FieldsShown(j: JE)
    ensures Field(ErrorField, j.error) in j.Fields() <==> j.error != ""
    ensures Field(MessageField, j.message) in j.Fields() <==> j.message != ""
    ensures Field(DomainField, j.domain) in j.Fields() <==> j.domain != ""
    ensures Field(TimeField, IntToString(j.time)) in j.Fields() <==> j.displayTime
    ensures forall f :: f in j.Fields() ==>
              f == Field(CodeField, IntToString(j.code))
              || (f == Field(ErrorField, j.error) && j.error != "")
              || (f == Field(MessageField, j.message) && j.message != "")
              || (f == Field(DomainField, j.domain) && j.domain != "")
              || (f == Field(TimeField, IntToString(j.time)) && j.displayTime)
  {
    var c := [Field(CodeField, IntToString(j.code))];
    var e := Optional(j.error != "", Field(ErrorField, j.error));
    var m := Optional(j.message != "", Field(MessageField, j.message));
    var d := Optional(j.domain != "", Field(DomainField, j.domain));
    var t := Optional(j.displayTime, Field(TimeField, IntToString(j.time)));
    assert j.Fields() == c + e + m + d + t;
  }

  /** The shown names strictly follow the fixed order code, error, message,
      domain, time, so no name is shown twice. */
  lemma FieldsOrdered(j: JE)
    ensures Ordered(j.Fields())
  {
    OrderedParts([Field(CodeField, IntToString(j.code))],
                 Optional(j.error != "", Field(ErrorField, j.error)),
                 Optional(j.message != "", Field(MessageField, j.message)),
                 Optional(j.domain != "", Field(DomainField, j.domain)),
                 Optional(j.displayTime, Field(TimeField, IntToString(j.time))));
  }

  /** Five groups of at most one field each, of increasing rank, are in
      order once concatenated. */
  lemma OrderedParts(c: seq<Field>, e: seq<Field>, m: seq<Field>, d: seq<Field>, t: seq<Field>)
    requires |c| == 1 && |e| <= 1 && |m| <= 1 && |d| <= 1 && |t| <= 1
    requires forall f :: f in c ==> f.name == CodeField
    requires forall f :: f in e ==> f.name == ErrorField
    requires forall f :: f in m ==> f.name == MessageField
    requires forall f :: f in d ==> f.name == DomainField
    requires forall f :: f in t ==> f.name == TimeField
    ensures Ordered(c + e + m + d + t)
  {
    OrderedConcat(c, e);
    OrderedConcat(c + e, m);
    OrderedConcat(c + e + m, d);
    OrderedConcat(c + e + m + d, t);
  }

  /** Field names in strictly increasing rank. */
  predicate Ordered(fs: seq<Field>) {
    forall i :: 0 <= i < |fs| - 1 ==> fs[i].name.Rank() < fs[i + 1].name.Rank()
  }

  /** Appending at most one field whose rank exceeds every earlier one keeps
      the names in order. */
  lemma OrderedConcat(fs: seq<Field>, gs: seq<Field>)
    requires Ordered(fs) && |gs| <= 1
    requires forall f, g :: f in fs && g in gs ==> f.name.Rank() < g.name.Rank()
    ensures Ordered(fs + gs)
  {
    if |gs| == 1 && |fs| >= 1 {
      assert fs[|fs| - 1] in fs;
    }
  }

  /** A joined text begins with the text of its first field. */
  lemma {:induction false} JoinStartsWithFirst(fs: seq<Field>)
    requires |fs| >= 1
    ensures Show(fs[0]) <= Join(fs)
    decreases |fs|
  {
    if |fs| > 1 {
      JoinStartsWithFirst(fs[..|fs| - 1]);
    }
  }

  /** With no optional segment present, `Error()` is exactly "[code]: "
      and the decimal code. */
  lemma ErrorStartsWithCode(j: JE)
    ensures j.error == "" && j.message == "" && j.domain == "" && !j.displayTime ==>
              j.Error() == "[code]: " + IntToString(j.code)
  {
    var code := Field(CodeField, IntToString(j.code));
    assert Show(code) == "[code]: " + IntToString(j.code);
  }

  /** The rendered map is the text form without the domain and the time:
      every shown field other than those two is rendered under its bracket
      name with the same value, and every rendered key is such a field. */
  lemma RenderAgreesWithFields(j: JE)
    ensures forall f :: f in j.Fields() && f.name.Rank() < 3 ==>
              f.name.Label() in j.Render() && j.Render()[f.name.Label()] == f.value
    ensures forall k :: k in j.Render() ==>
              exists f :: f in j.Fields() && f.name.Rank() < 3 && f.name.Label() == k && f.value == j.Render()[k]
  {
    var c := [Field(CodeField, IntToString(j.code))];
    var e := Optional(j.error != "", Field(ErrorField, j.error));
    var m := Optional(j.message != "", Field(MessageField, j.message));
    var d := Optional(j.domain != "", Field(DomainField, j.domain));
    var t := Optional(j.displayTime, Field(TimeField, IntToString(j.time)));
    var fs, r := j.Fields(), j.Render();
    assert fs == c + e + m + d + t;
    forall f | f in fs && f.name.Rank() < 3
      ensures f.name.Label() in r && r[f.name.Label()] == f.value
    {
      assert f in c || f in e || f in m;
    }
    FieldsShown(j);
    forall k | k in r
      ensures exists f :: f in fs && f.name.Rank() < 3 && f.name.Label() == k && f.value == r[k]
    {
      if k == "code" {
        assert fs[0] in fs;
      } else if k == "error" {
        assert Field(ErrorField, j.error) in fs;
      } else {
        assert Field(MessageField, j.message) in fs;
      }
    }
  }

  /** Construction loses nothing the renderings show: the rendered code
      parses back to the code, label and message come back unchanged, and
      the time read back is the time given. */
  lemma NewRoundTrip(code: int, error: string, message: string, domain: seq<string>, now: int)
    ensures ParseInt(New(code, error, message, domain, now).Render()["code"]) == code
    ensures error != "" ==> New(code, error, message, domain, now).Render()["error"] == error
    ensures message != "" ==> New(code, error, message, domain, now).Render()["message"] == message
    ensures New(code, error, message, domain, now).Time() == now
    ensures NewAndDisplayTime(code, error, message, domain, now).Time() == now
  {
    IntRoundTrip(code);
  }
}
