/**
 * The note form's validation schema: three independent field rules
 * (title, content, tag) whose failures are collected into one map from
 * field to message, as the form library reports them.
 */
module Schema {

  import opened Wrappers

  datatype Field = Title | Content | Tag

  const AllFields: set<Field> := {Title, Content, Tag}

  /** The form's values. The tag is the raw string the form holds, which
      the schema (not the type system) restricts to the five categories. */
  datatype Draft = Draft(title: string, content: string, tag: string) {

    function Get(f: Field): string {
      match f
      case Title => title
      case Content => content
      case Tag => tag
    }

    /** The draft after the user changes field `f` to `v`. */
    function Set(f: Field, v: string): (d: Draft)
      ensures d.Get(f) == v
      ensures forall g: Field :: g != f ==> d.Get(g) == Get(g)
    {
      match f
      case Title => this.(title := v)
      case Content => this.(content := v)
      case Tag => this.(tag := v)
    }
  }

  /** The values the form starts with and is reset to. */
  const InitialValues: Draft := Draft("", "", "Todo")

  const TagValues: seq<string> := ["Todo", "Work", "Personal", "Meeting", "Shopping"]

  const TitleMin: nat := 3
  const ContentMin: nat := 5

  const TitleRequired := "Title is required"
  const TitleTooShort := "Must be at least 3 characters"
  const ContentRequired := "Content is required"
  const ContentTooShort := "Must be at least 5 characters"
  /** The schema gives the tag rule no message; this is the schema library's
      default text for a failed one-of rule on the field `tag`. */
  const TagNotOneOf := "tag must be one of the following values: Todo, Work, Personal, Meeting, Shopping"

  /** The length a JavaScript string reports: UTF-16 code units, so a
      character outside the Basic Multilingual Plane counts twice. */
  function JsLength(s: string): (n: nat)
    ensures |s| <= n <= 2 * |s|
    ensures n == 0 <==> s == []
  {
    if s == [] then 0 else (if s[0] as int > 0xFFFF then 2 else 1) + JsLength(s[1..])
  }

  lemma {:induction false} JsLengthOfBmp(s: string)
    requires forall i :: 0 <= i < |s| ==> s[i] as int <= 0xFFFF
    ensures JsLength(s) == |s|
  {
    if s != [] {
      JsLengthOfBmp(s[1..]);
    }
  }

  /** The form library hands an empty string to the schema as `undefined`. */
  function Prepared(v: string): (r: Option<string>)
    ensures r == None <==> v == []
    ensures r.Some? ==> r.value == v
  {
    if v == "" then None else Some(v)
  }

  /** A required string with a minimum length: an absent value fails
      `required`; the length rule applies only to a present value and
      measures it untrimmed. */
  function RequiredMin(v: Option<string>, min: nat, requiredMsg: string, minMsg: string): (r: Option<string>)
    ensures r == None <==> v.Some? && JsLength(v.value) >= min
    ensures v == None ==> r == Some(requiredMsg)
    ensures v.Some? && JsLength(v.value) < min ==> r == Some(minMsg)
  {
    match v
    case None => Some(requiredMsg)
    case Some(s) => if JsLength(s) < min then Some(minMsg) else None
  }

  /** A one-of rule on a field that is not required: an absent value passes. */
  function OneOf(v: Option<string>, allowed: seq<string>, msg: string): (r: Option<string>)
    ensures r == None <==> v == None || v.value in allowed
    ensures r.Some? ==> r.value == msg
  {
    match v
    case None => None
    case Some(s) => if s in allowed then None else Some(msg)
  }

  /** The messages the rule for field `f` can report. */
  function Messages(f: Field): set<string> {
    match f
    case Title => {TitleRequired, TitleTooShort}
    case Content => {ContentRequired, ContentTooShort}
    case Tag => {TagNotOneOf}
  }

  /** The schema's rule for one field, applied to that field's value alone. */
  function FieldError(f: Field, v: string): (r: Option<string>)
    ensures r.Some? ==> r.value in Messages(f)
    ensures v == "" ==> (r.Some? <==> f != Tag)
  {
    match f
    case Title => RequiredMin(Prepared(v), TitleMin, TitleRequired, TitleTooShort)
    case Content => RequiredMin(Prepared(v), ContentMin, ContentRequired, ContentTooShort)
    case Tag => OneOf(Prepared(v), TagValues, TagNotOneOf)
  }

  /** Every field's error, all collected (no short-circuit between fields). */
  function Errors(d: Draft): (e: map<Field, string>)
    ensures e.Keys <= AllFields
  {
    map f | f in AllFields && FieldError(f, d.Get(f)).Some? :: FieldError(f, d.Get(f)).value
  }

  /** What the form library checks before it calls the submit handler. */
  predicate IsValid(d: Draft)
    ensures IsValid(d) <==> forall f :: f in AllFields ==> FieldError(f, d.Get(f)).None?
  {
    assert forall f :: f in AllFields && FieldError(f, d.Get(f)).Some? ==> f in Errors(d);
    Errors(d) == map[]
  }

  // ---------------------------------------------------------------------
  // Properties of the schema
  // ---------------------------------------------------------------------

  /** A field is in the error map exactly when its own rule fails, with that rule's message. */
  lemma ErrorsPerField(d: Draft, f: Field)
    ensures f in Errors(d) <==> FieldError(f, d.Get(f)).Some?
    ensures f in Errors(d) ==> Errors(d)[f] == FieldError(f, d.Get(f)).value
  {
  }

  /** Each field's error depends only on that field's value. */
  lemma ErrorIndependentOfOtherFields(d1: Draft, d2: Draft, f: Field)
    requires d1.Get(f) == d2.Get(f)
    ensures f in Errors(d1) <==> f in Errors(d2)
    ensures f in Errors(d1) ==> Errors(d1)[f] == Errors(d2)[f]
  {
    ErrorsPerField(d1, f);
    ErrorsPerField(d2, f);
  }

  /** The messages of a required string field with a minimum length, by raw length. */
  lemma {:induction false} RequiredMinMessages(v: string, min: nat, requiredMsg: string, minMsg: string)
    requires min > 0 && requiredMsg != minMsg
    ensures RequiredMin(Prepared(v), min, requiredMsg, minMsg) == Some(requiredMsg) <==> v == ""
    ensures RequiredMin(Prepared(v), min, requiredMsg, minMsg) == Some(minMsg) <==> 0 < JsLength(v) < min
    ensures RequiredMin(Prepared(v), min, requiredMsg, minMsg) == None <==> JsLength(v) >= min
  {
  }

  lemma TitleMessages(title: string)
    ensures FieldError(Title, title) == Some(TitleRequired) <==> title == ""
    ensures FieldError(Title, title) == Some(TitleTooShort) <==> 0 < JsLength(title) < 3
    ensures FieldError(Title, title) == None <==> JsLength(title) >= 3
  {
    RequiredMinMessages(title, TitleMin, TitleRequired, TitleTooShort);
  }

  lemma ContentMessages(content: string)
    ensures FieldError(Content, content) == Some(ContentRequired) <==> content == ""
    ensures FieldError(Content, content) == Some(ContentTooShort) <==> 0 < JsLength(content) < 5
    ensures FieldError(Content, content) == None <==> JsLength(content) >= 5
  {
    RequiredMinMessages(content, ContentMin, ContentRequired, ContentTooShort);
  }

  /** No trimming: any title of three or more characters passes, whitespace included. */
  lemma LongTitlePasses(title: string)
    requires |title| >= 3
    ensures FieldError(Title, title) == None
  {
  }

  /** No trimming: any content of five or more characters passes. */
  lemma LongContentPasses(content: string)
    requires |content| >= 5
    ensures FieldError(Content, content) == None
  {
  }

  /** Each of the five categories passes; any other non-empty value is rejected;
      an empty value reaches the schema as absent and passes. */
  lemma TagMessages(tag: string)
    ensures FieldError(Tag, tag) == None <==> tag == "" || tag in TagValues
    ensures FieldError(Tag, tag).Some? ==> FieldError(Tag, tag) == Some(TagNotOneOf)
    ensures FieldError(Tag, "Todo") == None && FieldError(Tag, "Work") == None
    ensures FieldError(Tag, "Personal") == None && FieldError(Tag, "Meeting") == None
    ensures FieldError(Tag, "Shopping") == None
  {
  }

  /** A draft is valid exactly when all three field rules pass. */
  lemma ValidIff(d: Draft)
    ensures IsValid(d) <==>
      JsLength(d.title) >= 3 && JsLength(d.content) >= 5 && (d.tag == "" || d.tag in TagValues)
  {
    ErrorsPerField(d, Title);
    ErrorsPerField(d, Content);
    ErrorsPerField(d, Tag);
    TitleMessages(d.title);
    ContentMessages(d.content);
    TagMessages(d.tag);
    if !IsValid(d) {
      var f :| f in Errors(d);
      assert f in AllFields;
    }
  }

  /** The form's initial values fail on both text fields. */
  lemma InitialValuesErrors()
    ensures Errors(InitialValues) == map[Title := TitleRequired, Content := ContentRequired]
  {
    ErrorsPerField(InitialValues, Title);
    ErrorsPerField(InitialValues, Content);
    ErrorsPerField(InitialValues, Tag);
  }

  /** A two-character title and a three-character content both fail, and both are reported. */
  lemma ShortTitleAndContentErrors()
    ensures Errors(Draft("Hi", "abc", "Todo")) == map[Title := TitleTooShort, Content := ContentTooShort]
  {
    var d := Draft("Hi", "abc", "Todo");
    ErrorsPerField(d, Title);
    ErrorsPerField(d, Content);
    ErrorsPerField(d, Tag);
  }

  lemma BuyMilkIsValid()
    ensures IsValid(Draft("Buy milk", "2% organic", "Shopping"))
  {
    ValidIff(Draft("Buy milk", "2% organic", "Shopping"));
  }
}
