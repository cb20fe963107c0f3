/**
  The value codec of SC.SelectFieldView (frameworks/desktop/views/select_field.js):
  how a selection is written into the select element as a string
  (`setFieldValue`) and how that string is matched back to one of `objects`
  (`getFieldValue`).
*/
module SelectValues {
  import opened Wrappers

  /**
    A JavaScript value the view handles. A string is its own value; any other
    object carries the guid `SC.guidFor` gives it, the string its `toString()`
    returns, and the properties `get(key)` reads.
  */
  datatype Value =
    | Str(s: string)
    | Obj(guid: string, text: string, props: map<string, Value>)

  /** The value written into the select for "no selection". */
  const Sentinel: string := "***"

  /** JavaScript truthiness of a value that may be null: null, undefined and '' are falsy. */
  predicate Truthy(v: Option<Value>)
  {
    v.Some? && v.value != Str("")
  }

  /** Truthiness of a string-valued property such as `valueKey` or `emptyName`. */
  predicate IsSet(k: Option<string>)
  {
    k.Some? && k.value != ""
  }

  /** `toString()`. */
  function Text(v: Value): string
  {
    match v
    case Str(s) => s
    case Obj(_, t, _) => t
  }

  /** `SC.guidFor(v)`; the empty string is a guid that tests false. */
  function Guid(v: Value): string
  {
    match v
    case Str(s) => s
    case Obj(g, _, _) => g
  }

  /** `SC.guidFor(v) ? SC.guidFor(v) : v.toString()`: the string that identifies a value in the select. */
  function Key(v: Value): (k: string)
    ensures Guid(v) != "" ==> k == Guid(v)
    ensures Guid(v) == "" ==> k == Text(v)
    ensures v.Str? ==> k == v.s
  {
    if Guid(v) != "" then Guid(v) else Text(v)
  }

  /** `object.get ? object.get(key) : object[key]`; a string has no such properties. */
  function Get(v: Value, key: string): Option<Value>
  {
    match v
    case Str(_) => None
    case Obj(_, _, props) => if key in props then Some(props[key]) else None
  }

  /**
    The value an entry of `objects` stands for: nothing for a placeholder, the
    `valueKey` property when `valueKey` is set, the entry itself otherwise.
  */
  function Target(e: Option<Value>, valueKey: Option<string>): (t: Option<Value>)
    ensures !Truthy(e) ==> t.None?
    ensures Truthy(e) && !IsSet(valueKey) ==> t == e
    ensures Truthy(e) && IsSet(valueKey) ==> t == Get(e.value, valueKey.value)
  {
    if !Truthy(e) then None
    else if IsSet(valueKey) then Get(e.value, valueKey.value)
    else e
  }

  /**
    `setFieldValue(newValue)` before it writes the select: null becomes the
    sentinel, a truthy value its key, and a falsy one (the empty string) null.
  */
  function Encode(v: Option<Value>): (r: Option<string>)
    ensures v.None? ==> r == Some(Sentinel)
    ensures Truthy(v) ==> r.Some? && r.value == Key(v.value)
    ensures v == Some(Str("")) ==> r.None?
  {
    if v.None? then Some(Sentinel)
    else if Truthy(v) then Some(Key(v.value))
    else None
  }

  /** An entry of `objects` matches the raw string `raw`: its value is truthy and has `raw` as key. */
  predicate Matches(e: Option<Value>, raw: string, valueKey: Option<string>)
  {
    var t := Target(e, valueKey);
    Truthy(t) && Key(t.value) == raw
  }

  /** The highest index whose entry matches `raw`, found by scanning from the end. */
  function LastMatch(objs: seq<Option<Value>>, raw: string, valueKey: Option<string>): (r: Option<nat>)
    ensures r.Some? ==> r.value < |objs| && Matches(objs[r.value], raw, valueKey)
    ensures r.Some? ==> forall j :: r.value < j < |objs| ==> !Matches(objs[j], raw, valueKey)
    ensures r.None? ==> forall j :: 0 <= j < |objs| ==> !Matches(objs[j], raw, valueKey)
    decreases |objs|
  {
    if |objs| == 0 then None
    else if Matches(objs[|objs| - 1], raw, valueKey) then Some(|objs| - 1)
    else LastMatch(objs[..|objs| - 1], raw, valueKey)
  }

  /**
    `getFieldValue()` given the select's raw value `raw`: the sentinel is null;
    otherwise the last entry of `objects` whose key is `raw`; failing that,
    null when `valueKey` is set and the raw string itself when it is not.
  */
  function Decode(raw: Option<string>, objects: Option<seq<Option<Value>>>, valueKey: Option<string>): (r: Option<Value>)
    ensures raw == Some(Sentinel) ==> r.None?
    ensures r.Some? ==> raw.Some? && raw.value != Sentinel && Key(r.value) == raw.value
    ensures !IsSet(valueKey) ==> (r.None? <==> raw.None? || raw == Some(Sentinel))
    ensures IsSet(valueKey) ==>
      (r.Some? <==> raw.Some? && raw.value !in {"", Sentinel} && objects.Some? &&
                    exists i :: 0 <= i < |objects.value| && Matches(objects.value[i], raw.value, valueKey))
    ensures raw.Some? && raw.value !in {"", Sentinel} && objects.Some? &&
            LastMatch(objects.value, raw.value, valueKey).Some? ==>
              r == Target(objects.value[LastMatch(objects.value, raw.value, valueKey).value], valueKey)
    ensures !IsSet(valueKey) && raw.Some? && raw.value != Sentinel &&
            (raw.value == "" || objects.None? || LastMatch(objects.value, raw.value, valueKey).None?) ==>
              r == Some(Str(raw.value))
  {
    if raw == Some(Sentinel) then None
    else
      var found :=
        if raw.Some? && raw.value != "" && objects.Some? then
          match LastMatch(objects.value, raw.value, valueKey)
          case Some(i) => Target(objects.value[i], valueKey)
          case None => None
        else None;
      if IsSet(valueKey) || found.Some? then found
      else if raw.None? then None
      else Some(Str(raw.value))
  }

  /** Null survives the round trip through the select. */
  lemma NullRoundTrip(objects: Option<seq<Option<Value>>>, valueKey: Option<string>)
    ensures Decode(Encode(None), objects, valueKey) == None
  {
  }

  /**
    Encoding the value of entry `i` and decoding the result gives back an entry
    value with the same key: the one of the highest matching index, which is
    `i` or above. The key must not be the sentinel or the empty string, which
    the decoder reads as "no selection".
  */
  lemma RoundTrip(objs: seq<Option<Value>>, i: nat, valueKey: Option<string>)
    requires i < |objs|
    requires Truthy(Target(objs[i], valueKey))
    requires Key(Target(objs[i], valueKey).value) !in {"", Sentinel}
    ensures var r := Decode(Encode(Target(objs[i], valueKey)), Some(objs), valueKey);
            r.Some? && Key(r.value) == Key(Target(objs[i], valueKey).value) &&
            exists j :: i <= j < |objs| && r == Target(objs[j], valueKey)
  {
  }

  /** Any value whose key happens to be the sentinel is read back as null, whatever the entries. */
  lemma SentinelKeyReadsAsNull(v: Value, objects: Option<seq<Option<Value>>>, valueKey: Option<string>)
    requires Key(v) == Sentinel
    ensures Encode(Some(v)) == Some(Sentinel)
    ensures Decode(Encode(Some(v)), objects, valueKey) == None
  {
  }
}
