/** The select box: which options count as selected for the current value, in
    single and multiple mode, and the text its button shows. */
module Select {
  import opened Wrappers
  import opened Seqs
  import opened Text

  datatype SelectOption = SelectOption(value: string, labelText: string)

  /** The `value` prop: one string or a list of strings. */
  datatype SelectValue = One(value: string) | Many(values: seq<string>)

  /** What `selectedOptions` holds: a list in multiple mode, at most one
      option in single mode. */
  datatype Selection = Options(options: seq<SelectOption>) | Choice(choice: Option<SelectOption>)

  const DefaultPlaceholder := "請選擇..."
  const CountSuffix := " 個選項已選擇"

  /** `t` occurs in `s` as a contiguous piece (`String.prototype.includes`). */
  predicate Contains(s: string, t: string)
  {
    exists i :: 0 <= i <= |s| && StartsWith(s[i..], t)
  }

  /** `value.includes(option.value)` for the list or the string `value`. */
  function Includes(value: SelectValue): SelectOption -> bool
  {
    match value
    case Many(vs) => (o: SelectOption) => o.value in vs
    case One(s) => (o: SelectOption) => Contains(s, o.value)
  }

  /** `option.value === value`; a list never equals a string. */
  function Equals(value: SelectValue): SelectOption -> bool
  {
    match value
    case One(s) => (o: SelectOption) => o.value == s
    case Many(_) => (o: SelectOption) => false
  }

  /** `selectedOptions`. */
  function SelectedOptions(options: seq<SelectOption>, value: SelectValue, multiple: bool): Selection
  {
    if multiple then Options(Filter(options, Includes(value)))
    else Choice(FindFirst(options, Equals(value)))
  }

  /** In multiple mode with a list, the selection is exactly the options whose
      value is listed, each as often as it is offered, in the options' order. */
  lemma MultipleSelectsListed(options: seq<SelectOption>, values: seq<string>)
    ensures SelectedOptions(options, Many(values), true).Options?
    ensures var r := SelectedOptions(options, Many(values), true).options;
      && (forall o :: o in r <==> o in options && o.value in values)
      && (forall o :: o in r ==> multiset(r)[o] == multiset(options)[o])
      && IsSubsequence(r, options)
  {
    var r := SelectedOptions(options, Many(values), true).options;
    assert r == Filter(options, Includes(Many(values)));
    forall o ensures Includes(Many(values))(o) <==> o.value in values {
    }
  }

  /** In single mode with a string, the choice is the first option carrying
      that value, and there is none exactly when no option carries it. */
  lemma SingleSelectsFirst(options: seq<SelectOption>, v: string)
    ensures SelectedOptions(options, One(v), false).Choice?
    ensures var c := SelectedOptions(options, One(v), false).choice;
      && (c.None? <==> forall i :: 0 <= i < |options| ==> options[i].value != v)
      && (c.Some? ==> exists k :: && 0 <= k < |options| && options[k] == c.value
                                  && c.value.value == v
                                  && forall j :: 0 <= j < k ==> options[j].value != v)
  {
    var p := Equals(One(v));
    assert forall o :: p(o) <==> o.value == v;
  }

  /** In single mode a list value selects nothing. */
  lemma SingleWithListSelectsNothing(options: seq<SelectOption>, values: seq<string>)
    ensures SelectedOptions(options, Many(values), false) == Choice(None)
  {
    var p := Equals(Many(values));
    assert forall i :: 0 <= i < |options| ==> !p(options[i]);
  }

  /** The button text. */
  function ButtonLabel(options: seq<SelectOption>, value: SelectValue, multiple: bool,
                       placeholder: string): string
  {
    match SelectedOptions(options, value, multiple)
    case Options(os) => if |os| > 0 then NatToString(|os|) + CountSuffix else placeholder
    case Choice(c) => if c.Some? then c.value.labelText else placeholder
  }

  /** In multiple mode the button counts the listed options, or shows the
      placeholder when none is listed. */
  lemma MultipleLabel(options: seq<SelectOption>, values: seq<string>, placeholder: string)
    ensures (forall i :: 0 <= i < |options| ==> options[i].value !in values) ==>
              ButtonLabel(options, Many(values), true, placeholder) == placeholder
    ensures (exists i :: 0 <= i < |options| && options[i].value in values) ==>
              ButtonLabel(options, Many(values), true, placeholder)
                == NatToString(|SelectedOptions(options, Many(values), true).options|) + CountSuffix
  {
    MultipleSelectsListed(options, values);
    var r := SelectedOptions(options, Many(values), true).options;
    if exists i :: 0 <= i < |options| && options[i].value in values {
      var i :| 0 <= i < |options| && options[i].value in values;
      assert options[i] in r;
    }
  }

  /** In single mode the button shows the first matching option's label, or
      the placeholder when no option carries the value. */
  lemma SingleLabel(options: seq<SelectOption>, v: string, placeholder: string)
    ensures (forall i :: 0 <= i < |options| ==> options[i].value != v) ==>
              ButtonLabel(options, One(v), false, placeholder) == placeholder
    ensures (exists i :: 0 <= i < |options| && options[i].value == v) ==>
              exists k :: && 0 <= k < |options| && options[k].value == v
                          && ButtonLabel(options, One(v), false, placeholder) == options[k].labelText
                          && forall j :: 0 <= j < k ==> options[j].value != v
  {
    SingleSelectsFirst(options, v);
  }
}
