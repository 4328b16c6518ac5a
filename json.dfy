/**
 * The decoded response body as `json_decode($body, false)` returns it: JSON
 * objects become `stdClass` objects, JSON arrays become PHP lists. How the
 * text is decoded is not modelled; the transports receive the decoded value.
 */
module Json {
  import opened Php
  import opened Strings

  datatype Value =
    | JNull
    | JBool(b: bool)
    | JInt(i: int)
    | JString(s: string)
    | JArray(items: seq<Value>)
    | JObject(fields: map<string, Value>)

  /** PHP truthiness of a decoded value: an object is always truthy, a list when it is non-empty. */
  predicate Truthy(j: Value) {
    match j
    case JNull => false
    case JBool(b) => b
    case JInt(i) => i != 0
    case JString(s) => s != "" && s != "0"
    case JArray(items) => items != []
    case JObject(_) => true
  }

  /** `isset($j->name)`: `j` is an object whose property `name` exists and is not null. */
  predicate Isset(j: Value, name: string) {
    j.JObject? && name in j.fields && j.fields[name] != JNull
  }

  function Field(j: Value, name: string): Value
    requires Isset(j, name)
  {
    j.fields[name]
  }

  /**
   * The string conversion of a property value. A list reads "Array"; an
   * object, which PHP refuses to convert, reads as the empty string here.
   */
  function Text(j: Value): string {
    match j
    case JNull => ""
    case JBool(b) => if b then "1" else ""
    case JInt(i) => IntText(i)
    case JString(s) => s
    case JArray(_) => "Array"
    case JObject(_) => ""
  }

  /** `$error->message`: null (read as "") when `error` is not an object or has no message. */
  function Message(error: Value): string {
    if error.JObject? && "message" in error.fields then Text(error.fields["message"]) else ""
  }

  function Messages(items: seq<Value>): (ms: seq<string>)
    ensures |ms| == |items|
    ensures forall i :: 0 <= i < |items| ==> ms[i] == Message(items[i])
  {
    seq(|items|, i requires 0 <= i < |items| => Message(items[i]))
  }

  /**
   * `implode(', ', array_map(fn($e) => $e->message, $errors))`. When
   * `errors` is not a list, `array_map` fails with a warning and the text
   * is empty.
   */
  function ErrorText(errors: Value): string {
    if errors.JArray? then Join(Messages(errors.items), ", ") else ""
  }

  /** An error object `{"message": m}`. */
  function ErrorObject(m: string): Value {
    JObject(map["message" := JString(m)])
  }

  /**
   * The joined text of a list of error objects is their messages in order,
   * separated by ", ": one error gives its own message, and splitting the
   * text on ',' gives each message back (after the first, with its leading
   * space) when no message contains ','.
   */
  lemma {:induction false} ErrorTextOfObjects(ms: seq<string>)
    requires ms != []
    requires forall i :: 0 <= i < |ms| ==> ',' !in ms[i]
    ensures |ms| == 1 ==> ErrorText(JArray(seq(|ms|, i requires 0 <= i < |ms| => ErrorObject(ms[i])))) == ms[0]
    ensures Split(ErrorText(JArray(seq(|ms|, i requires 0 <= i < |ms| => ErrorObject(ms[i])))), ',')
         == [ms[0]] + seq(|ms| - 1, i requires 0 <= i < |ms| - 1 => " " + ms[i + 1])
  {
    var items := seq(|ms|, i requires 0 <= i < |ms| => ErrorObject(ms[i]));
    ObjectMessages(ms);
    assert ErrorText(JArray(items)) == Join(ms, ", ");
    var spaced := [ms[0]] + seq(|ms| - 1, i requires 0 <= i < |ms| - 1 => " " + ms[i + 1]);
    JoinSpaced(ms);
    SpacedCommaFree(ms);
    SplitJoin(spaced, ',');
  }

  lemma {:induction false} ObjectMessages(ms: seq<string>)
    ensures Messages(seq(|ms|, i requires 0 <= i < |ms| => ErrorObject(ms[i]))) == ms
  {
    var items := seq(|ms|, i requires 0 <= i < |ms| => ErrorObject(ms[i]));
    forall i | 0 <= i < |ms|
      ensures Messages(items)[i] == ms[i]
    {
      assert Message(ErrorObject(ms[i])) == ms[i];
    }
  }

  lemma {:induction false} SpacedCommaFree(ms: seq<string>)
    requires ms != []
    requires forall i :: 0 <= i < |ms| ==> ',' !in ms[i]
    ensures var spaced := [ms[0]] + seq(|ms| - 1, i requires 0 <= i < |ms| - 1 => " " + ms[i + 1]);
      forall i :: 0 <= i < |spaced| ==> ',' !in spaced[i]
  {
    var spaced := [ms[0]] + seq(|ms| - 1, i requires 0 <= i < |ms| - 1 => " " + ms[i + 1]);
    forall i | 0 <= i < |spaced|
      ensures ',' !in spaced[i]
    {
      if i > 0 {
        assert spaced[i] == " " + ms[i];
      }
    }
  }

  /** Joining with ", " is joining with ',' after a space is put in front of every part but the first. */
  lemma {:induction false} JoinSpaced(ms: seq<string>)
    requires ms != []
    ensures Join(ms, ", ") == Join([ms[0]] + seq(|ms| - 1, i requires 0 <= i < |ms| - 1 => " " + ms[i + 1]), ",")
  {
    var spaced := [ms[0]] + seq(|ms| - 1, i requires 0 <= i < |ms| - 1 => " " + ms[i + 1]);
    if |ms| > 1 {
      var rest := ms[1..];
      JoinSpaced(rest);
      var spacedRest := [rest[0]] + seq(|rest| - 1, i requires 0 <= i < |rest| - 1 => " " + rest[i + 1]);
      // Join(spaced, ",") == ms[0] + "," + " " + rest[0] + "," + ...
      assert spaced[1..] == [" " + rest[0]] + spacedRest[1..];
      JoinHeadPrefix(spacedRest, " ");
      assert Join(spaced[1..], ",") == " " + Join(spacedRest, ",");
      assert Join(ms, ", ") == ms[0] + ", " + Join(rest, ", ");
      assert Join(spaced, ",") == ms[0] + "," + Join(spaced[1..], ",");
    }
  }

  /** Putting text in front of the first part puts it in front of the join. */
  lemma {:induction false} JoinHeadPrefix(parts: seq<string>, p: string)
    requires parts != []
    ensures Join([p + parts[0]] + parts[1..], ",") == p + Join(parts, ",")
  {
    var q := [p + parts[0]] + parts[1..];
    assert q[1..] == parts[1..];
  }
}
