/** FormMessage: a message about a form and the ordered list of fields it
    concerns. */
module FormMessage {
  import opened Wrappers

  /** String concatenation of a possibly null string. */
  function Text(s: Option<string>): string
  {
    match s case Some(v) => v case None => "null"
  }

  /** Each field name followed by a space. */
  function Names(fieldNames: seq<Option<string>>): string
  {
    if |fieldNames| == 0 then ""
    else Names(fieldNames[..|fieldNames| - 1]) + Text(fieldNames[|fieldNames| - 1]) + " "
  }

  /** The names of two lists are the names of the first then those of the
      second. */
  lemma {:induction false} NamesAppend(a: seq<Option<string>>, b: seq<Option<string>>)
    ensures Names(a + b) == Names(a) + Names(b)
    decreases |b|
  {
    if |b| == 0 {
      assert a + b == a;
    } else {
      var last := b[|b| - 1];
      assert (a + b)[..|a + b| - 1] == a + b[..|b| - 1];
      NamesAppend(a, b[..|b| - 1]);
      assert Names(a + b) == Names(a) + Names(b[..|b| - 1]) + Text(last) + " ";
    }
  }

  /** Every field name takes its text and one space. */
  lemma {:induction false} NamesLength(fieldNames: seq<Option<string>>, i: nat)
    requires i <= |fieldNames|
    ensures |Names(fieldNames[..i])| >= i
    decreases i
  {
    if i > 0 {
      NamesLength(fieldNames, i - 1);
      assert fieldNames[..i][..i - 1] == fieldNames[..i - 1];
    }
  }

  const FORM_NAME_LABEL: string := "formName:"
  const FIELD_NAMES_LABEL: string := ", fieldNames:"
  const MESSAGE_LABEL: string := ", message:"

  /** The part of toString before the field names. */
  function Head(formName: Option<string>): (r: string)
    ensures |r| >= |FORM_NAME_LABEL + FIELD_NAMES_LABEL|
  {
    FORM_NAME_LABEL + Text(formName) + FIELD_NAMES_LABEL
  }

  /** The part of toString after the field names. */
  function Tail(message: Option<string>): (r: string)
    ensures |r| >= |MESSAGE_LABEL|
  {
    MESSAGE_LABEL + Text(message)
  }

  /** toString: "formName:" and the form name, ", fieldNames:" and each
      field name followed by a space, ", message:" and the message. */
  function Rendered(formName: Option<string>, fieldNames: seq<Option<string>>, message: Option<string>): string
  {
    Head(formName) + Names(fieldNames) + Tail(message)
  }

  /** Adding a field name adds its text and a space to the names. */
  lemma NamesSnoc(fieldNames: seq<Option<string>>, name: Option<string>)
    ensures Names(fieldNames + [name]) == Names(fieldNames) + Text(name) + " "
  {
    var ns := fieldNames + [name];
    assert ns[..|ns| - 1] == fieldNames;
  }

  /** Adding a field name inserts its text and a space just before the
      message part of toString. */
  lemma RenderedAfterAdd(formName: Option<string>, fieldNames: seq<Option<string>>, name: Option<string>,
                         message: Option<string>)
    ensures Rendered(formName, fieldNames + [name], message)
      == Head(formName) + Names(fieldNames) + Text(name) + " " + Tail(message)
  {
    NamesSnoc(fieldNames, name);
    Regroup(Head(formName), Names(fieldNames), Text(name), " ", Tail(message));
  }

  /** String concatenation is associative. */
  lemma Regroup(h: string, n: string, a: string, b: string, t: string)
    ensures h + (n + a + b) + t == h + n + a + b + t
  {
  }

  /** toString starts with the form-name part and ends with the message
      part, whatever the field names, with at least one char per field
      name in between. */
  lemma RenderedFrame(formName: Option<string>, fieldNames: seq<Option<string>>, message: Option<string>)
    ensures var r := Rendered(formName, fieldNames, message);
      var head, tail := Head(formName), Tail(message);
      && |head| + |fieldNames| + |tail| <= |r|
      && r[..|head|] == head && r[|r| - |tail|..] == tail
  {
    var r := Rendered(formName, fieldNames, message);
    var head, tail := Head(formName), Tail(message);
    NamesLength(fieldNames, |fieldNames|);
    assert fieldNames[..|fieldNames|] == fieldNames;
    assert r == head + (Names(fieldNames) + tail);
  }

  class FormMessage {
    var message: Option<string>
    var formName: Option<string>
    /** The field names in the order they were added. */
    var fieldNames: seq<Option<string>>

    /** FormMessage(): no form, no field, no message. */
    constructor()
      ensures formName == None && fieldNames == [] && message == None
    {
      formName := None;
      fieldNames := [];
      message := None;
    }

    /** FormMessage(formName). */
    constructor WithForm(formName: Option<string>)
      ensures this.formName == formName && fieldNames == [] && message == None
    {
      this.formName := formName;
      fieldNames := [];
      message := None;
    }

    /** FormMessage(formName, fieldName). */
    constructor WithField(formName: Option<string>, fieldName: Option<string>)
      ensures this.formName == formName && fieldNames == [fieldName] && message == None
    {
      this.formName := formName;
      fieldNames := [fieldName];
      message := None;
    }

    /** FormMessage(formName, fieldName, message). */
    constructor WithMessage(formName: Option<string>, fieldName: Option<string>, message: Option<string>)
      ensures this.formName == formName && fieldNames == [fieldName] && this.message == message
    {
      this.formName := formName;
      fieldNames := [fieldName];
      this.message := message;
    }

    /** getFieldNames: a fresh array of the names in order. */
    method GetFieldNames() returns (names: array<Option<string>>)
      ensures fresh(names) && names[..] == fieldNames
    {
      names := new Option<string>[|fieldNames|](i requires 0 <= i < |fieldNames| reads this => fieldNames[i]);
    }

    /** setMessage: replaces the message only. */
    method SetMessage(message: Option<string>)
      modifies this
      ensures this.message == message && formName == old(formName) && fieldNames == old(fieldNames)
    {
      this.message := message;
    }

    /** setFormName: replaces the form name only. */
    method SetFormName(formName: Option<string>)
      modifies this
      ensures this.formName == formName && message == old(message) && fieldNames == old(fieldNames)
    {
      this.formName := formName;
    }

    /** setFieldName: adds one field name at the end, duplicates kept. */
    method SetFieldName(fieldName: Option<string>)
      modifies this
      ensures fieldNames == old(fieldNames) + [fieldName]
      ensures formName == old(formName) && message == old(message)
    {
      fieldNames := fieldNames + [fieldName];
    }

    /** toString: the StringBuilder loop over the field names. */
    method ToString() returns (s: string)
      ensures s == Rendered(formName, fieldNames, message)
    {
      var names := GetFieldNames();
      s := FORM_NAME_LABEL + Text(formName) + FIELD_NAMES_LABEL;
      ghost var head := Head(formName);
      var i := 0;
      while i < names.Length
        invariant 0 <= i <= names.Length && names[..] == fieldNames
        invariant s == head + Names(fieldNames[..i])
      {
        assert fieldNames[..i + 1][..i] == fieldNames[..i];
        s := s + (Text(names[i]) + " ");
        i := i + 1;
      }
      assert fieldNames[..i] == fieldNames;
      s := s + (MESSAGE_LABEL + Text(message));
    }
  }
}
