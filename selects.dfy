/** The label rule of the custom drop-downs in Frontend/script.js
    (`updateTriggerText`): what the trigger shows for the options currently
    selected, given as their text in document order. */
module Selects {
  import opened TextUtil

  /** The check mark an option's text may carry. */
  const CheckMark: char := '✔'

  /** What the trigger shows when nothing is selected. */
  const Placeholder: string := "Select..."

  /** The words after the count when more than two options are selected. */
  const ItemsSelected: string := " items selected"

  /** `s.replace(c, '')` with a string pattern: only the first `c` goes. */
  function RemoveFirst(s: string, c: char): (r: string)
    ensures c !in s ==> r == s
    ensures c in s ==> |r| == |s| - 1 && r == s[..IndexOf(s, c)] + s[IndexOf(s, c) + 1..]
  {
    var i := IndexOf(s, c);
    if i == |s| then s
    else
      assert s == s[..i] + [c] + s[i + 1..];
      s[..i] + s[i + 1..]
  }

  /** The name of one selected option:
      `o.textContent.trim().replace('✔', '').trim()`. */
  function OptionLabel(text: string): string {
    Trim(RemoveFirst(Trim(text), CheckMark))
  }

  /** The names of the selected options, in order. */
  function Labels(selected: seq<string>): (r: seq<string>)
    ensures |r| == |selected|
    ensures forall k | 0 <= k < |r| :: r[k] == OptionLabel(selected[k])
  {
    seq(|selected|, k requires 0 <= k < |selected| => OptionLabel(selected[k]))
  }

  /** The text `updateTriggerText` puts in the trigger. */
  function TriggerText(selected: seq<string>, isMultiSelect: bool): string {
    if |selected| == 0 then Placeholder
    else if isMultiSelect then
      if |selected| <= 2 then Join(Labels(selected), ", ")
      else NatToDecimal(|selected|) + ItemsSelected
    else OptionLabel(selected[0])
  }

  /** Trimming removes white space only: every other character keeps its
      number of occurrences. */
  lemma {:induction false} TrimKeepsNonSpace(s: string, c: char)
    requires !IsSpace(c)
    ensures multiset(Trim(s))[c] == multiset(s)[c]
    decreases |s|
  {
    if s != [] && IsSpace(s[0]) {
      assert s == [s[0]] + s[1..];
      TrimKeepsNonSpace(s[1..], c);
    } else if s != [] && IsSpace(s[|s| - 1]) {
      assert s == s[..|s| - 1] + [s[|s| - 1]];
      TrimKeepsNonSpace(s[..|s| - 1], c);
    }
  }

  /** Removing the first `c` lowers the count of `c` by one when there is
      one, and keeps every other count. */
  lemma RemoveFirstCount(s: string, c: char, d: char)
    ensures multiset(RemoveFirst(s, c))[d] == multiset(s)[d] - (if d == c && c in s then 1 else 0)
  {
    if c in s {
      var i := IndexOf(s, c);
      assert s == s[..i] + [c] + s[i + 1..];
    }
  }

  /** An option's name is trimmed, and is the trimmed text when the text has
      no check mark. */
  lemma OptionLabelTrimmed(text: string)
    ensures Trim(OptionLabel(text)) == OptionLabel(text)
    ensures CheckMark !in text ==> OptionLabel(text) == Trim(text)
  {
    TrimIdempotent(RemoveFirst(Trim(text), CheckMark));
    if CheckMark !in text {
      assert CheckMark !in Trim(text) by { OptionLabelCount(text, CheckMark); TrimKeepsNonSpace(text, CheckMark); }
      TrimIdempotent(text);
    }
  }

  /** The name has one check mark fewer than the text when the text has one;
      every other character that is not white space keeps its count. */
  lemma OptionLabelCount(text: string, c: char)
    requires !IsSpace(c)
    ensures multiset(OptionLabel(text))[c] == multiset(text)[c] - (if c == CheckMark && CheckMark in text then 1 else 0)
  {
    var t := Trim(text);
    assert !IsSpace(CheckMark);
    TrimKeepsNonSpace(text, c);
    TrimKeepsNonSpace(text, CheckMark);
    RemoveFirstCount(t, CheckMark, c);
    TrimKeepsNonSpace(RemoveFirst(t, CheckMark), c);
    assert CheckMark in text <==> CheckMark in t by {
      assert CheckMark in text <==> multiset(text)[CheckMark] > 0;
      assert CheckMark in t <==> multiset(t)[CheckMark] > 0;
    }
  }

  /** A name followed by a space and a check mark is shown as the bare
      name. */
  lemma CheckedAfterLabel(name: string)
    requires name != [] && Trim(name) == name && CheckMark !in name
    ensures OptionLabel(name + " " + [CheckMark]) == name
  {
    var text := name + " " + [CheckMark];
    assert Trim(text) == text by {
      TrimEnds(name);
      assert text[0] == name[0];
      TrimUnchanged(text);
    }
    assert RemoveFirst(text, CheckMark) == name + " " by {
      IndexOfAbsentPrefix(name + " ", CheckMark);
      assert text == (name + " ") + [CheckMark];
    }
    TrimAppendSpace(name, " ");
  }

  /** A check mark, a space and a name is shown as the bare name. */
  lemma CheckedBeforeLabel(name: string)
    requires name != [] && Trim(name) == name && CheckMark !in name
    ensures OptionLabel([CheckMark] + " " + name) == name
  {
    var text := [CheckMark] + " " + name;
    assert Trim(text) == text by {
      TrimEnds(name);
      assert text[|text| - 1] == name[|name| - 1];
      TrimUnchanged(text);
    }
    assert RemoveFirst(text, CheckMark) == " " + name by {
      assert IndexOf(text, CheckMark) == 0;
    }
    TrimDropSpace(name);
  }

  lemma IndexOfAbsentPrefix(a: string, c: char)
    requires c !in a
    ensures IndexOf(a + [c], c) == |a|
  {
    IndexOfPrefix(a, [], c);
    assert a + [c] + [] == a + [c];
  }

  lemma TrimDropSpace(name: string)
    requires Trim(name) == name
    ensures Trim(" " + name) == name
  {
    assert (" " + name)[1..] == name;
  }

  /** Reading the names back from the trigger: the pieces between commas,
      trimmed. */
  function ReadLabels(shown: string): (r: seq<string>)
    ensures |r| == |SplitOn(shown, ',')|
  {
    var pieces := SplitOn(shown, ',');
    seq(|pieces|, k requires 0 <= k < |pieces| => Trim(pieces[k]))
  }

  /** The trigger's text for each selection: the placeholder for none; the
      name of the first option for a single select; for a multi select, the
      names joined by ", " up to two, and the count followed by " items
      selected" beyond. */
  lemma TriggerTextCases(selected: seq<string>, isMultiSelect: bool)
    ensures |selected| == 0 ==> TriggerText(selected, isMultiSelect) == "Select..."
    ensures |selected| >= 1 && !isMultiSelect ==> TriggerText(selected, isMultiSelect) == OptionLabel(selected[0])
    ensures |selected| == 1 && isMultiSelect ==> TriggerText(selected, isMultiSelect) == OptionLabel(selected[0])
    ensures |selected| == 2 && isMultiSelect
      ==> TriggerText(selected, isMultiSelect) == OptionLabel(selected[0]) + ", " + OptionLabel(selected[1])
    ensures |selected| > 2 && isMultiSelect ==> EndsWith(TriggerText(selected, isMultiSelect), " items selected")
  {
    if |selected| == 2 && isMultiSelect {
      var labels := Labels(selected);
      assert labels[1..] == [labels[1]];
    }
  }

  /** The count shown for more than two selected options reads back as the
      number of selected options. */
  lemma CountRoundTrip(selected: seq<string>)
    requires |selected| > 2
    ensures var shown := TriggerText(selected, true);
      var digits := shown[..|shown| - |ItemsSelected|];
      |shown| > |ItemsSelected|
      && (forall i | 0 <= i < |digits| :: IsDigit(digits[i]))
      && DecimalValue(digits) == |selected|
  {
    var shown := TriggerText(selected, true);
    var count := NatToDecimal(|selected|);
    assert shown[..|shown| - |ItemsSelected|] == count;
    DecimalRoundTrip(|selected|);
  }

  /** The names shown for one or two selected options read back as those
      names when no name holds a comma. */
  lemma NamesRoundTrip(selected: seq<string>)
    requires 1 <= |selected| <= 2
    requires forall k | 0 <= k < |selected| :: ',' !in OptionLabel(selected[k])
    ensures ReadLabels(TriggerText(selected, true)) == Labels(selected)
  {
    var labels := Labels(selected);
    forall k | 0 <= k < |labels| ensures Trim(labels[k]) == labels[k] {
      OptionLabelTrimmed(selected[k]);
    }
    var shown := TriggerText(selected, true);
    if |selected| == 1 {
      SplitJoin([labels[0]], ',');
    } else {
      var pieces := [labels[0], " " + labels[1]];
      assert shown == labels[0] + [','] + (" " + labels[1]);
      assert Join(pieces, [',']) == shown by {
        assert pieces[1..] == [" " + labels[1]];
      }
      SplitJoin(pieces, ',');
      TrimDropSpace(labels[1]);
    }
  }
}
