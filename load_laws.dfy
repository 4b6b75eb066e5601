/** What loading a raw header line promises: the columns land under keys
    0, 1, 2, … in column order, and read back as fields named after them. */
module LoadLaws {
  import opened Wrappers
  import opened Text
  import opened Events
  import opened Fields
  import opened HeaderOrder
  import opened Headers
  import opened HeaderLaws

  /** Loading into an empty bag writes each name under its column's key, in
      column order, and nothing else. */
  lemma {:induction false} LoadIntoEmptyBag(names: seq<string>)
    ensures StoreNames([], names) == ColumnProperties(names, 0)
  {
    if names != [] {
      var n := |names| - 1;
      var init := names[..n];
      assert StoreNames([], names) == SetProperty(StoreNames([], init), HeaderKey(n), StringValue(names[n]));
      LoadIntoEmptyBag(init);
      FreshColumnKey(init);
      ColumnPropertiesSnoc(init, names[n]);
      assert init + [names[n]] == names;
    }
  }

  /** The key after the last column is not yet in the bag. */
  lemma FreshColumnKey(names: seq<string>)
    ensures GetProperty(ColumnProperties(names, 0), HeaderKey(|names|)).None?
  {
    var before := ColumnProperties(names, 0);
    forall j | 0 <= j < |before| ensures before[j].name != HeaderKey(|names|) {
      assert before[j].name == HeaderKey(j);
    }
    assert FindName(before, HeaderKey(|names|)).None?;
  }

  /** One more column adds one property under the next key. */
  lemma ColumnPropertiesSnoc(names: seq<string>, name: string)
    ensures ColumnProperties(names + [name], 0)
      == ColumnProperties(names, 0) + [Property(HeaderKey(|names|), StringValue(name))]
  {
  }


  /** Column names without parentheses read back as string fields of those
      names, and the one spelled as the timestamp name reads back as the
      timestamp field. */
  lemma LoadedNamesDecode(names: seq<string>)
    requires forall i :: 0 <= i < |names| ==> names[i] != [] && IsBare(names[i])
    ensures var r := GetFields(StoreNames([], names));
      && r.Success? && |r.value| == |names|
      && forall i :: 0 <= i < |names| ==>
           r.value[i].Name() == names[i]
           && (r.value[i].IsTimestamp() <==> names[i] == TIMESTAMP_PROPERTY_NAME)
  {
    var es := Entries(ColumnProperties(names, 0));
    assert GetFields(StoreNames([], names)) == DecodeTokens(es) by {
      LoadIntoEmptyBag(names);
      DecodeInOrder(names);
    }
    ColumnTokens(names);
    BareTokensDecode(es, names);
  }

  /** The entries of freshly written columns hold the column names as tokens. */
  lemma ColumnTokens(names: seq<string>)
    ensures var es := Entries(ColumnProperties(names, 0));
      |es| == |names| && forall i :: 0 <= i < |es| ==> es[i].token == names[i]
  {
  }

  /** Entries holding names without parentheses read back as fields named after them. */
  lemma BareTokensDecode(es: seq<Entry>, names: seq<string>)
    requires |es| == |names| && forall i :: 0 <= i < |es| ==> es[i].token == names[i]
    requires forall i :: 0 <= i < |names| ==> names[i] != [] && IsBare(names[i])
    ensures var r := DecodeTokens(es);
      && r.Success? && |r.value| == |names|
      && forall i :: 0 <= i < |names| ==>
           r.value[i].Name() == names[i]
           && (r.value[i].IsTimestamp() <==> names[i] == TIMESTAMP_PROPERTY_NAME)
  {
    var r := DecodeTokens(es);
    assert r.Success?;
    forall i | 0 <= i < |names|
      ensures r.value[i].Name() == names[i]
      ensures r.value[i].IsTimestamp() <==> names[i] == TIMESTAMP_PROPERTY_NAME
    {
      assert ParseToken(names[i]) == Success(r.value[i]);
    }
  }

  /** A column stored under the timestamp name is exactly one that spells it
      in some letter case. */
  lemma ColumnNameIsTimestampIff(column: string)
    ensures ColumnName(column) == TIMESTAMP_PROPERTY_NAME
      <==> EqualsIgnoreCase(Trim(column), TIMESTAMP_PROPERTY_NAME)
  {
    EqualsIgnoreCaseIff(TIMESTAMP_PROPERTY_NAME, TIMESTAMP_PROPERTY_NAME);
  }

  /** Header columns without blanks and without parentheses, once loaded into an
      empty bag, read back as one field per column: named after the trimmed
      column, and a timestamp exactly when the column spells the timestamp
      name in some letter case. */
  lemma LoadedColumnsDecode(columns: seq<string>)
    requires FirstMissingHeader(columns).None?
    requires forall i :: 0 <= i < |columns| ==> IsBare(ColumnName(columns[i]))
    ensures GetFields(StoreNames([], ColumnNames(columns))).Success?
    ensures |GetFields(StoreNames([], ColumnNames(columns))).value| == |columns|
    ensures forall i :: 0 <= i < |columns| ==>
      GetFields(StoreNames([], ColumnNames(columns))).value[i].Name() == ColumnName(columns[i])
    ensures forall i :: 0 <= i < |columns| ==>
      (GetFields(StoreNames([], ColumnNames(columns))).value[i].IsTimestamp() <==>
         EqualsIgnoreCase(Trim(columns[i]), TIMESTAMP_PROPERTY_NAME))
  {
    var names := ColumnNames(columns);
    forall i | 0 <= i < |names| ensures names[i] != [] && IsBare(names[i]) {
      assert !AllBlank(columns[i]);
    }
    LoadedNamesDecode(names);
    forall i | 0 <= i < |columns| ensures names[i] == TIMESTAMP_PROPERTY_NAME
      <==> EqualsIgnoreCase(Trim(columns[i]), TIMESTAMP_PROPERTY_NAME)
    {
      ColumnNameIsTimestampIff(columns[i]);
    }
  }
}
