/**
  SC.SelectFieldView (frameworks/desktop/views/select_field.js): a view over a
  native select element. `render` rebuilds the element's option list from
  `objects` when the `cpDidChange` flag is raised; the observers raise it again
  when `objects`, `nameKey` or `valueKey` change; `getFieldValue` maps the
  element's raw value back to one of `objects`.
*/
module SelectField {
  import opened Wrappers
  import opened SelectValues
  import opened SelectSort

  /** One option element: a choice with its value attribute and its shown name, or a disabled empty separator. */
  datatype MenuOption =
    | Choice(value: Option<string>, name: Option<string>)
    | Separator

  /** The name shown for an entry: its `nameKey` property when `nameKey` is set, its `toString()` otherwise. */
  function Name(o: Value, nameKey: Option<string>): (n: Option<string>)
    ensures !IsSet(nameKey) ==> n == Some(Text(o))
    ensures IsSet(nameKey) ==> n == (match Get(o, nameKey.value) case Some(p) => Some(Text(p)) case None => None)
  {
    if IsSet(nameKey) then
      match Get(o, nameKey.value)
      case Some(p) => Some(Text(p))
      case None => None
    else Some(Text(o))
  }

  /** The option rendered for one entry: a separator for a placeholder, a choice otherwise. */
  function OptionFor(e: Option<Value>, nameKey: Option<string>, valueKey: Option<string>): (opt: MenuOption)
    ensures opt.Separator? <==> !Truthy(e)
    ensures opt.Choice? ==> opt.value == (var t := Target(e, valueKey); if Truthy(t) then Some(Key(t.value)) else None)
    ensures opt.Choice? ==> opt.name == Name(e.value, nameKey)
  {
    if Truthy(e) then
      var t := Target(e, valueKey);
      Choice(if Truthy(t) then Some(Key(t.value)) else None, Name(e.value, nameKey))
    else Separator
  }

  /** The options for the entries, appended one by one in order. */
  function ObjectOptions(objs: seq<Option<Value>>, nameKey: Option<string>, valueKey: Option<string>): seq<MenuOption>
  {
    if objs == [] then []
    else ObjectOptions(objs[..|objs| - 1], nameKey, valueKey) + [OptionFor(objs[|objs| - 1], nameKey, valueKey)]
  }

  /** The empty option and its separator, present when `emptyName` is set. */
  function Header(emptyName: Option<string>): seq<MenuOption>
  {
    if IsSet(emptyName) then [Choice(Some(Sentinel), emptyName), Separator] else []
  }

  /** The option list `render` builds. */
  function OptionList(objs: seq<Option<Value>>, emptyName: Option<string>,
                      nameKey: Option<string>, valueKey: Option<string>): seq<MenuOption>
  {
    Header(emptyName) + ObjectOptions(objs, nameKey, valueKey)
  }

  /** Entry `i` yields option `i` of the entry options, and there is one option per entry. */
  lemma {:induction false} ObjectOptionsAt(objs: seq<Option<Value>>, nameKey: Option<string>, valueKey: Option<string>)
    ensures |ObjectOptions(objs, nameKey, valueKey)| == |objs|
    ensures forall i :: 0 <= i < |objs| ==> ObjectOptions(objs, nameKey, valueKey)[i] == OptionFor(objs[i], nameKey, valueKey)
  {
    if objs != [] {
      var p := objs[..|objs| - 1];
      ObjectOptionsAt(p, nameKey, valueKey);
      assert forall i :: 0 <= i < |p| ==> p[i] == objs[i];
    }
  }

  /**
    The shape of the rendered list: the sentinel option and a separator when
    `emptyName` is set, then exactly one option per entry, a separator for each
    placeholder and a choice for every other entry.
  */
  lemma OptionListShape(objs: seq<Option<Value>>, emptyName: Option<string>,
                        nameKey: Option<string>, valueKey: Option<string>)
    ensures var opts := OptionList(objs, emptyName, nameKey, valueKey);
            var h := if IsSet(emptyName) then 2 else 0;
            |opts| == |objs| + h &&
            (IsSet(emptyName) ==> opts[0] == Choice(Some(Sentinel), emptyName) && opts[1] == Separator) &&
            (forall i :: 0 <= i < |objs| ==> opts[h + i] == OptionFor(objs[i], nameKey, valueKey)) &&
            (forall i :: 0 <= i < |objs| ==> (opts[h + i].Separator? <==> !Truthy(objs[i])))
  {
    ObjectOptionsAt(objs, nameKey, valueKey);
  }

  /**
    Lines 132-133 of `render`: without `valueKey` a truthy value is replaced by
    its guid; a null or empty result becomes the sentinel.
  */
  function RenderedSelection(value: Option<Value>, valueKey: Option<string>): (fv: Option<Value>)
    ensures fv.Some?
    ensures value.None? ==> fv == Some(Str(Sentinel))
    ensures !IsSet(valueKey) && Truthy(value) && Guid(value.value) != "" ==> fv == Some(Str(Guid(value.value)))
    ensures !IsSet(valueKey) && Truthy(value) && Guid(value.value) == "" ==> fv == Some(Str(Sentinel))
    ensures IsSet(valueKey) && Truthy(value) ==> fv == value
    ensures value == Some(Str("")) ==> fv == Some(Str(Sentinel))
  {
    var fv := if !IsSet(valueKey) && Truthy(value) then Some(Str(Guid(value.value))) else value;
    if fv.None? || fv == Some(Str("")) then Some(Str(Sentinel)) else fv
  }

  /**
    When the current value is the value of a non-placeholder entry, `render`
    writes into the select exactly the value attribute of that entry's option,
    so the browser shows that option as selected.
  */
  lemma RenderSelectsCurrentOption(objs: seq<Option<Value>>, i: nat, emptyName: Option<string>,
                                   nameKey: Option<string>, valueKey: Option<string>, value: Option<Value>)
    requires i < |objs|
    requires Truthy(objs[i]) && Truthy(value) && value == Target(objs[i], valueKey)
    requires !IsSet(valueKey) ==> Guid(value.value) != ""
    ensures var h := if IsSet(emptyName) then 2 else 0;
            var opts := OptionList(objs, emptyName, nameKey, valueKey);
            h + i < |opts| && opts[h + i].Choice? &&
            Encode(RenderedSelection(value, valueKey)) == opts[h + i].value
  {
    OptionListShape(objs, emptyName, nameKey, valueKey);
  }

  /**
    Choosing a rendered option and reading the field back: the empty option
    reads as null, and a choice whose value attribute is an ordinary key reads
    as an entry value with that key.
  */
  lemma {:induction false} ChosenOptionDecodes(objs: seq<Option<Value>>, emptyName: Option<string>,
                                               nameKey: Option<string>, valueKey: Option<string>, n: nat)
    requires n < |OptionList(objs, emptyName, nameKey, valueKey)|
    requires OptionList(objs, emptyName, nameKey, valueKey)[n].Choice?
    ensures var opt := OptionList(objs, emptyName, nameKey, valueKey)[n];
            var r := Decode(opt.value, Some(objs), valueKey);
            (IsSet(emptyName) && n == 0 ==> r.None?) &&
            (opt.value.Some? && opt.value.value !in {"", Sentinel} ==> r.Some? && Key(r.value) == opt.value.value)
  {
    OptionListShape(objs, emptyName, nameKey, valueKey);
    var h := if IsSet(emptyName) then 2 else 0;
    var opt := OptionList(objs, emptyName, nameKey, valueKey)[n];
    if n >= h && opt.value.Some? && opt.value.value !in {"", Sentinel} {
      RoundTrip(objs, n - h, valueKey);
    }
  }

  /** `render` defaults `value` to the first entry's value when there is no empty option and no selection. */
  predicate DefaultsToFirst(objs: seq<Option<Value>>, emptyName: Option<string>, fieldValue: Option<Value>)
  {
    |objs| > 0 && Truthy(objs[0]) && !IsSet(emptyName) && fieldValue == Some(Str(Sentinel))
  }

  class SelectFieldView {
    var objects: Option<seq<Option<Value>>>
    var nameKey: Option<string>
    var sortKey: Option<string>
    var valueKey: Option<string>
    var emptyName: Option<string>
    var disableSort: bool
    /** Raised when `objects`, `nameKey` or `valueKey` changed since the last rebuild. */
    var cpDidChange: bool
    /** The view's `value` property. */
    var value: Option<Value>
    /** The value the select element reports, as `$input().val()` reads and writes it. */
    var inputValue: Option<string>
    /** The select element's option elements. */
    var options: seq<MenuOption>

    /** A view with the class defaults: no objects, no keys, sorting on, rebuild pending. */
    constructor ()
      ensures objects == Some([]) && nameKey.None? && sortKey.None? && valueKey.None?
      ensures emptyName.None? && !disableSort && cpDidChange
      ensures value.None? && inputValue.None? && options == []
    {
      objects := Some([]);
      nameKey, sortKey, valueKey, emptyName := None, None, None, None;
      disableSort := false;
      cpDidChange := true;
      value := None;
      inputValue := None;
      options := [];
    }

    /** `_objectsObserver` and `_objectArrayObserver`: a new or changed `objects` array raises the flag. */
    method SetObjects(objs: Option<seq<Option<Value>>>)
      modifies this`objects, this`cpDidChange
      ensures objects == objs && cpDidChange
    {
      objects := objs;
      cpDidChange := true;
    }

    /** `_nameKeyObserver`. */
    method SetNameKey(k: Option<string>)
      modifies this`nameKey, this`cpDidChange
      ensures nameKey == k && cpDidChange
    {
      nameKey := k;
      cpDidChange := true;
    }

    /** `_valueKeyObserver`. */
    method SetValueKey(k: Option<string>)
      modifies this`valueKey, this`cpDidChange
      ensures valueKey == k && cpDidChange
    {
      valueKey := k;
      cpDidChange := true;
    }

    /** `setFieldValue(newValue)`: writes the encoded value into the select. */
    method SetFieldValue(newValue: Option<Value>)
      modifies this`inputValue
      ensures inputValue == Encode(newValue)
    {
      inputValue := Encode(newValue);
    }

    /**
      `getFieldValue()`: scans `objects` from the last entry down, skipping
      placeholders, and stops at the first entry whose value has the raw
      string as key.
    */
    method GetFieldValue() returns (r: Option<Value>)
      ensures r == Decode(inputValue, objects, valueKey)
    {
      var raw := inputValue;
      var found: Option<Value> := None;
      if raw == Some(Sentinel) {
        return None;
      }
      if raw.Some? && raw.value != "" && objects.Some? {
        var objs := objects.value;
        var loc := |objs|;
        while found.None? && loc > 0
          invariant 0 <= loc <= |objs|
          invariant found.None? ==> forall j :: loc <= j < |objs| ==> !Matches(objs[j], raw.value, valueKey)
          invariant found.Some? ==> loc < |objs| && Matches(objs[loc], raw.value, valueKey)
                                    && found == Target(objs[loc], valueKey)
                                    && forall j :: loc < j < |objs| ==> !Matches(objs[j], raw.value, valueKey)
          decreases loc, found.None?
        {
          loc := loc - 1;
          var entry := objs[loc];
          if !Truthy(entry) {
            continue;
          }
          if IsSet(valueKey) {
            entry := Get(entry.value, valueKey.value);
          }
          var ov := if Truthy(entry) then Some(Key(entry.value)) else None;
          if ov == raw {
            found := entry;
          }
        }
      }
      if IsSet(valueKey) || found.Some? {
        r := found;
      } else if raw.None? {
        r := None;
      } else {
        r := Some(Str(raw.value));
      }
    }

    /**
      The `forEach` of `render`: the header options, then one option per entry
      appended in order; on the first entry the value may default to that
      entry's value.
    */
    method AppendEntryOptions(objs: seq<Option<Value>>, fieldValue: Option<Value>) returns (built: seq<MenuOption>)
      modifies this`value
      ensures built == OptionList(objs, emptyName, nameKey, valueKey)
      ensures value == (if DefaultsToFirst(objs, emptyName, fieldValue)
                        then Target(objs[0], valueKey) else old(value))
    {
      built := Header(emptyName);
      var i := 0;
      while i < |objs|
        invariant 0 <= i <= |objs|
        invariant built == Header(emptyName) + ObjectOptions(objs[..i], nameKey, valueKey)
        invariant value == (if i > 0 && DefaultsToFirst(objs, emptyName, fieldValue)
                            then Target(objs[0], valueKey) else old(value))
      {
        var entry := objs[i];
        if Truthy(entry) {
          var v := Target(entry, valueKey);
          if !IsSet(emptyName) && i == 0 && fieldValue == Some(Str(Sentinel)) {
            value := v;
          }
        }
        built := built + [OptionFor(entry, nameKey, valueKey)];
        assert objs[..i + 1][..i] == objs[..i];
        i := i + 1;
      }
      assert objs[..i] == objs;
    }

    /**
      `sortObjects(objects)`: unchanged when `disableSort` is set; otherwise the
      same entries ordered by the sort key, else the name key, else the
      entries' own strings.
    */
    method SortObjects(objs: seq<Option<Value>>) returns (r: seq<Option<Value>>)
      ensures disableSort ==> r == objs
      ensures multiset(r) == multiset(objs) && |r| == |objs|
      ensures !disableSort ==> Ordered(r, OrderingKey(sortKey, nameKey))
    {
      r := objs;
      if !disableSort {
        r := InsertionSort(objs, OrderingKey(sortKey, nameKey));
      }
    }

    /**
      `render(context, firstTime)`. A first render fills a new, empty select
      element; `hasElement` says whether the select element exists on a later
      render. With the flag down the value stays as it was, and a first render
      leaves its new element empty.
      With it up the flag is lowered; without `objects` the value becomes null;
      otherwise `objects` is sorted in place and, when there is an element to
      fill, the option list is rebuilt and the value may default to the first
      entry's. The selection is written only into an element that already
      exists, that is on a later render; on a first render the select has no
      value yet.
    */
    method Render(firstTime: bool, hasElement: bool)
      modifies this
      ensures nameKey == old(nameKey) && sortKey == old(sortKey) && valueKey == old(valueKey)
      ensures emptyName == old(emptyName) && disableSort == old(disableSort)
      ensures !cpDidChange
      ensures !old(cpDidChange) ==> objects == old(objects) && value == old(value)
      ensures old(cpDidChange) && old(objects).None? ==> objects.None? && value.None?
      ensures (!old(cpDidChange) || old(objects).None?) && firstTime ==>
        options == [] && inputValue.None?
      ensures (!old(cpDidChange) || old(objects).None?) && !firstTime ==>
        options == old(options) && inputValue == old(inputValue)
      ensures old(cpDidChange) && old(objects).Some? ==>
        objects.Some? && multiset(objects.value) == multiset(old(objects).value) &&
        (disableSort ==> objects == old(objects)) &&
        (!disableSort ==> Ordered(objects.value, OrderingKey(sortKey, nameKey)))
      ensures old(cpDidChange) && old(objects).Some? && !firstTime && !hasElement ==>
        value == old(value) && inputValue == old(inputValue) && options == old(options)
      ensures old(cpDidChange) && old(objects).Some? && (firstTime || hasElement) ==>
        options == OptionList(objects.value, emptyName, nameKey, valueKey) &&
        value == (if DefaultsToFirst(objects.value, emptyName, RenderedSelection(old(value), valueKey))
                  then Target(objects.value[0], valueKey) else old(value))
      ensures firstTime ==> inputValue.None?
      ensures old(cpDidChange) && old(objects).Some? && !firstTime && hasElement ==>
        inputValue == Encode(RenderedSelection(old(value), valueKey))
    {
      if firstTime {
        options := [];
        inputValue := None;
      }
      if cpDidChange {
        cpDidChange := false;
        var fieldValue := RenderedSelection(value, valueKey);
        if objects.Some? {
          var objs := SortObjects(objects.value);
          objects := Some(objs);
          if firstTime || hasElement {
            options := AppendEntryOptions(objs, fieldValue);
          }
          if !firstTime && hasElement {
            SetFieldValue(fieldValue);
          }
        } else {
          value := None;
        }
      }
    }
  }
}
