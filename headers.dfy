/** The CSV header codec. A header block is stored as properties of an event:
    column i under the key HEADER_NAME_PREFIX + i, holding the column's token.
    The codec writes such a block from field descriptors, reads the
    descriptors back from whatever bag the block sits in, and loads a raw
    header line into it. */
module Headers {
  import opened Wrappers
  import opened Text
  import opened Events
  import opened Fields
  import opened HeaderOrder

  /** The prefix of every header property key. */
  const HEADER_NAME_PREFIX: string := "csv-header-"

  predicate IsHeaderKey(name: string)
  {
    |HEADER_NAME_PREFIX| <= |name| && name[..|HEADER_NAME_PREFIX|] == HEADER_NAME_PREFIX
  }

  /** The index a key names: its suffix after the prefix, read as a decimal number. */
  function KeyIndex(name: string): Option<nat>
  {
    if IsHeaderKey(name) then ParseNat(name[|HEADER_NAME_PREFIX|..]) else None
  }

  /** The key of column i: the prefix followed by i written without
      leading zeros; it names index i. */
  function HeaderKey(i: nat): (k: string)
    ensures IsHeaderKey(k) && KeyIndex(k) == Some(i)
    ensures IsCanonicalNumeral(k[|HEADER_NAME_PREFIX|..])
  {
    var k := HEADER_NAME_PREFIX + NatToString(i);
    assert k[|HEADER_NAME_PREFIX|..] == NatToString(i);
    k
  }

  /** The key codec is a bijection between indexes and the header keys whose
      suffix has no leading zeros: a name is the key of column i exactly when
      it is such a key and reads back as i. */
  lemma KeyIndexIff(name: string, i: nat)
    ensures name == HeaderKey(i) <==>
      IsHeaderKey(name) && IsCanonicalNumeral(name[|HEADER_NAME_PREFIX|..]) && KeyIndex(name) == Some(i)
  {
    if IsHeaderKey(name) && IsCanonicalNumeral(name[|HEADER_NAME_PREFIX|..]) && KeyIndex(name) == Some(i) {
      var suffix := name[|HEADER_NAME_PREFIX|..];
      CanonicalNumeralRoundTrip(suffix);
      assert name == HEADER_NAME_PREFIX + suffix;
    }
  }

  lemma LineNumberIsNotHeaderKey()
    ensures !IsHeaderKey(LINE_NUMBER_PROPERTY_NAME)
  {
    assert LINE_NUMBER_PROPERTY_NAME[0] != HEADER_NAME_PREFIX[0];
  }

  /** The errors that reading the field descriptors back can raise. */
  datatype HeaderError =
    | InvalidHeaderPropertyName(key: string)
    | OutOfSequence(key: string)
    | InvalidSpecification(token: string, cause: FormatError)

  /** A header property holding a long is read through its decimal text. */
  function TokenOf(v: Value): string
  {
    match v
    case StringValue(s) => s
    case LongValue(l) => IntToString(l)
  }

  // ---------------------------------------------------------------- decoding

  /** The header properties of a bag, in bag order; everything else is dropped. */
  function HeaderProperties(props: seq<Property>): (hs: seq<Property>)
    ensures forall i :: 0 <= i < |hs| ==> IsHeaderKey(hs[i].name)
    ensures |hs| <= |props|
  {
    if props == [] then []
    else (if IsHeaderKey(props[0].name) then [props[0]] else []) + HeaderProperties(props[1..])
  }

  /** The header properties are exactly the bag's properties with header keys. */
  lemma {:induction false} HeaderPropertiesMembers(props: seq<Property>)
    ensures forall p :: p in HeaderProperties(props) <==> p in props && IsHeaderKey(p.name)
  {
    if props != [] {
      HeaderPropertiesMembers(props[1..]);
      assert props == [props[0]] + props[1..];
    }
  }

  /** The position of the first header property whose suffix is not a number. */
  function FirstInvalidKey(hs: seq<Property>): (r: Option<nat>)
    ensures r.Some? ==> r.value < |hs| && KeyIndex(hs[r.value].name).None?
    ensures r.Some? ==> forall j :: 0 <= j < r.value ==> KeyIndex(hs[j].name).Some?
    ensures r.None? <==> forall j :: 0 <= j < |hs| ==> KeyIndex(hs[j].name).Some?
  {
    if hs == [] then None
    else if KeyIndex(hs[0].name).None? then Some(0)
    else match FirstInvalidKey(hs[1..])
      case Some(k) => Some(k + 1)
      case None => None
  }

  function EntryOf(p: Property): Entry
  {
    var index := match KeyIndex(p.name) case Some(n) => n case None => 0;
    Entry(index, p.name, TokenOf(p.value))
  }

  function Entries(hs: seq<Property>): seq<Entry>
  {
    seq(|hs|, i requires 0 <= i < |hs| => EntryOf(hs[i]))
  }

  /** Reads the tokens in order; the first one that does not parse stops the
      reading with an error that names it and carries the parse failure. */
  function DecodeTokens(es: seq<Entry>): (r: Result<seq<CSVField>, HeaderError>)
    ensures r.Success? <==> forall i :: 0 <= i < |es| ==> ParseToken(es[i].token).Success?
    ensures r.Success? ==> |r.value| == |es|
    ensures r.Success? ==> forall i :: 0 <= i < |es| ==> ParseToken(es[i].token) == Success(r.value[i])
    ensures r.Failure? ==>
      (exists i :: 0 <= i < |es| && ParseToken(es[i].token).Failure?
        && (forall j :: 0 <= j < i ==> ParseToken(es[j].token).Success?)
        && r.error == InvalidSpecification(es[i].token, ParseToken(es[i].token).error))
  {
    if es == [] then Success([])
    else match ParseToken(es[0].token)
      case Failure(cause) => Failure(InvalidSpecification(es[0].token, cause))
      case Success(f) =>
        match DecodeTokens(es[1..])
        case Failure(e) =>
          FirstBadTokenStep(es, e);
          Failure(e)
        case Success(rest) =>
          Success([f] + rest)
  }

  /** The first token that fails to parse after a token that parses is the
      first one that fails in the longer sequence. */
  lemma FirstBadTokenStep(es: seq<Entry>, e: HeaderError)
    requires es != [] && ParseToken(es[0].token).Success?
    requires
      exists i :: 0 <= i < |es| - 1 && ParseToken(es[1..][i].token).Failure?
        && (forall j :: 0 <= j < i ==> ParseToken(es[1..][j].token).Success?)
        && e == InvalidSpecification(es[1..][i].token, ParseToken(es[1..][i].token).error)
    ensures
      exists i :: 0 <= i < |es| && ParseToken(es[i].token).Failure?
        && (forall j :: 0 <= j < i ==> ParseToken(es[j].token).Success?)
        && e == InvalidSpecification(es[i].token, ParseToken(es[i].token).error)
  {
    var k :| 0 <= k < |es| - 1 && ParseToken(es[1..][k].token).Failure?
        && (forall j :: 0 <= j < k ==> ParseToken(es[1..][j].token).Success?)
        && e == InvalidSpecification(es[1..][k].token, ParseToken(es[1..][k].token).error);
    assert es[k + 1] == es[1..][k];
    forall j | 0 <= j < k + 1 ensures ParseToken(es[j].token).Success? {
      if j > 0 { assert es[j] == es[1..][j - 1]; }
    }
  }

  /** The field descriptors of the header block in a bag: the header keys
      must all end in a number, the numbers must run 0..N-1, and every token
      must parse. Other properties are ignored. */
  function GetFields(props: seq<Property>): (r: Result<seq<CSVField>, HeaderError>)
    ensures r.Success? ==> |r.value| == |HeaderProperties(props)|
    ensures r.Success? ==> forall i :: 0 <= i < |r.value| ==> r.value[i].Format() == None
  {
    var hs := HeaderProperties(props);
    match FirstInvalidKey(hs)
    case Some(k) => Failure(InvalidHeaderPropertyName(hs[k].name))
    case None =>
      var sorted := SortByIndex(Entries(hs));
      match FirstOutOfSequence(sorted, 0)
      case Some(k) => Failure(OutOfSequence(sorted[k].key))
      case None => DecodeTokens(sorted)
  }

  // ---------------------------------------------------------------- encoding

  /** Column properties for tokens, keyed from index `from` on. */
  function ColumnProperties(tokens: seq<string>, from: nat): seq<Property>
  {
    seq(|tokens|, i requires 0 <= i < |tokens| => Property(HeaderKey(from + i), StringValue(tokens[i])))
  }

  function Tokens(fields: seq<CSVField>): seq<string>
  {
    seq(|fields|, i requires 0 <= i < |fields| => EncodeToken(fields[i]))
  }

  /** The bag a header block is written as: the line number, then one
      property per field in field order; no two of them share a name. */
  function EncodedProperties(lineNumber: int, fields: seq<CSVField>): (ps: seq<Property>)
    ensures |ps| == 1 + |fields| && NamesDistinct(ps)
  {
    var ps := [Property(LINE_NUMBER_PROPERTY_NAME, LongValue(lineNumber))] + ColumnProperties(Tokens(fields), 0);
    BlockNamesDistinct(lineNumber, Tokens(fields));
    ps
  }

  /** A line-number property followed by column properties has distinct names. */
  lemma BlockNamesDistinct(lineNumber: int, tokens: seq<string>)
    ensures NamesDistinct([Property(LINE_NUMBER_PROPERTY_NAME, LongValue(lineNumber))] + ColumnProperties(tokens, 0))
  {
    var cols := ColumnProperties(tokens, 0);
    var e := [Property(LINE_NUMBER_PROPERTY_NAME, LongValue(lineNumber))] + cols;
    assert forall k :: 0 <= k < |cols| ==> cols[k].name == HeaderKey(k);
    assert e[0].name == LINE_NUMBER_PROPERTY_NAME && e[1..] == cols;
    LineNumberIsNotHeaderKey();
    forall i, j | 0 <= i < j < |e| ensures e[i].name != e[j].name {
      assert e[j] == cols[j - 1];
      if i == 0 {
        assert IsHeaderKey(cols[j - 1].name);
      } else {
        assert e[i] == cols[i - 1];
        assert KeyIndex(cols[i - 1].name) != KeyIndex(cols[j - 1].name);
      }
    }
  }

  // -------------------------------------------------------------- raw load

  /** The failure of a raw header load: a column without a name, reported with
      the line number, no position within the line, and the column's index. */
  datatype ParsingError = ParsingError(lineNumber: int, positionInLine: Option<nat>, missingHeader: nat)

  /** The name a raw column is stored under: trimmed, and the timestamp name
      in any letter case stored as the timestamp property name. */
  function ColumnName(raw: string): (n: string)
    ensures EqualsIgnoreCase(Trim(raw), TIMESTAMP_PROPERTY_NAME) ==> n == TIMESTAMP_PROPERTY_NAME
    ensures !EqualsIgnoreCase(Trim(raw), TIMESTAMP_PROPERTY_NAME) ==> n == Trim(raw)
    ensures n == [] <==> AllBlank(raw)
  {
    var t := Trim(raw);
    if EqualsIgnoreCase(t, TIMESTAMP_PROPERTY_NAME) then TIMESTAMP_PROPERTY_NAME else t
  }

  function ColumnNames(columns: seq<string>): seq<string>
  {
    seq(|columns|, i requires 0 <= i < |columns| => ColumnName(columns[i]))
  }

  /** A line yields one name per column, and a name is empty exactly when its
      column is blank. */
  lemma ColumnNamesShape(columns: seq<string>)
    ensures |ColumnNames(columns)| == |columns|
    ensures forall i :: 0 <= i < |columns| ==> (ColumnNames(columns)[i] == [] <==> AllBlank(columns[i]))
  {
  }

  /** The first column that is blank once trimmed. */
  function FirstMissingHeader(columns: seq<string>): (r: Option<nat>)
    ensures r.Some? ==> r.value < |columns| && AllBlank(columns[r.value])
    ensures r.Some? ==> forall j :: 0 <= j < r.value ==> !AllBlank(columns[j])
    ensures r.None? <==> forall j :: 0 <= j < |columns| ==> !AllBlank(columns[j])
  {
    if columns == [] then None
    else if AllBlank(columns[0]) then Some(0)
    else match FirstMissingHeader(columns[1..])
      case Some(k) => Some(k + 1)
      case None => None
  }

  /** The bag after storing names under consecutive header keys, in order. */
  function StoreNames(props: seq<Property>, names: seq<string>): seq<Property>
  {
    if names == [] then props
    else SetProperty(StoreNames(props, names[..|names| - 1]), HeaderKey(|names| - 1), StringValue(names[|names| - 1]))
  }

  /** After storing names, each name reads back under its column's key. */
  lemma {:induction false} StoredNamesReadBack(props: seq<Property>, names: seq<string>)
    ensures forall i :: 0 <= i < |names| ==> GetProperty(StoreNames(props, names), HeaderKey(i)) == Some(StringValue(names[i]))
  {
    if names != [] {
      var k := |names| - 1;
      var init := names[..k];
      StoredNamesReadBack(props, init);
      assert names == init + [names[k]];
      StoredKeysStep(StoreNames(props, init), init, names[k]);
    }
  }

  /** Setting the next key keeps the keys before it and reads back the new name. */
  lemma StoredKeysStep(before: seq<Property>, init: seq<string>, x: string)
    requires forall j :: 0 <= j < |init| ==> GetProperty(before, HeaderKey(j)) == Some(StringValue(init[j]))
    ensures var after := SetProperty(before, HeaderKey(|init|), StringValue(x));
      forall i :: 0 <= i < |init| + 1 ==> GetProperty(after, HeaderKey(i)) == Some(StringValue((init + [x])[i]))
  {
    var after := SetProperty(before, HeaderKey(|init|), StringValue(x));
    forall i | 0 <= i < |init| + 1 ensures GetProperty(after, HeaderKey(i)) == Some(StringValue((init + [x])[i])) {
      if i < |init| {
        OtherKeyUnchanged(before, |init|, x, i);
      } else {
        GetAfterSet(before, HeaderKey(|init|), StringValue(x), HeaderKey(i));
      }
    }
  }

  /** Setting key k leaves what key i reads, for i before k. */
  lemma OtherKeyUnchanged(props: seq<Property>, k: nat, name: string, i: nat)
    requires i < k
    ensures GetProperty(SetProperty(props, HeaderKey(k), StringValue(name)), HeaderKey(i)) == GetProperty(props, HeaderKey(i))
  {
    assert KeyIndex(HeaderKey(i)) != KeyIndex(HeaderKey(k));
    GetAfterSet(props, HeaderKey(k), StringValue(name), HeaderKey(i));
  }

  /** Storing names leaves every property outside the header namespace as it reads. */
  lemma {:induction false} StoreNamesKeepsForeign(props: seq<Property>, names: seq<string>, n: string)
    requires !IsHeaderKey(n)
    ensures GetProperty(StoreNames(props, names), n) == GetProperty(props, n)
  {
    if names != [] {
      var k := |names| - 1;
      StoreNamesKeepsForeign(props, names[..k], n);
      GetAfterSet(StoreNames(props, names[..k]), HeaderKey(k), StringValue(names[k]), n);
    }
  }

  lemma {:induction false} StoreNamesKeepsNamesDistinct(props: seq<Property>, names: seq<string>)
    requires NamesDistinct(props)
    ensures NamesDistinct(StoreNames(props, names))
  {
    if names != [] {
      StoreNamesKeepsNamesDistinct(props, names[..|names| - 1]);
      SetPropertyKeepsNamesDistinct(StoreNames(props, names[..|names| - 1]), HeaderKey(|names| - 1), StringValue(names[|names| - 1]));
    }
  }

  // ------------------------------------------------------------ the object

  /** A header block: an event whose properties hold the block. */
  class CSVHeaders {
    var properties: seq<Property>

    /** The bag never holds two properties of one name, so every property in
        it is the one its name reads (Events.DistinctNamesAllVisible). */
    ghost predicate Valid()
      reads this
    {
      NamesDistinct(properties)
    }

    /** An empty header block. */
    constructor ()
      ensures Valid() && properties == []
    {
      properties := [];
    }

    /** The header block of the given fields, read at the given line. */
    constructor FromFields(lineNumber: int, fields: seq<CSVField>)
      ensures Valid() && properties == EncodedProperties(lineNumber, fields)
    {
      var acc := [Property(LINE_NUMBER_PROPERTY_NAME, LongValue(lineNumber))];
      var i := 0;
      while i < |fields|
        invariant 0 <= i <= |fields|
        invariant acc == EncodedProperties(lineNumber, fields[..i])
      {
        acc := acc + [Property(HeaderKey(i), StringValue(EncodeToken(fields[i])))];
        i := i + 1;
        assert ColumnProperties(Tokens(fields[..i]), 0)
          == ColumnProperties(Tokens(fields[..i - 1]), 0) + [Property(HeaderKey(i - 1), StringValue(EncodeToken(fields[i - 1])))];
      }
      assert fields[..i] == fields;
      properties := acc;
    }

    method SetStringProperty(name: string, value: string)
      requires Valid()
      modifies this
      ensures Valid()
      ensures properties == SetProperty(old(properties), name, StringValue(value))
    {
      SetPropertyKeepsNamesDistinct(properties, name, StringValue(value));
      properties := SetProperty(properties, name, StringValue(value));
    }

    method SetLongProperty(name: string, value: int)
      requires Valid()
      modifies this
      ensures Valid()
      ensures properties == SetProperty(old(properties), name, LongValue(value))
    {
      SetPropertyKeepsNamesDistinct(properties, name, LongValue(value));
      properties := SetProperty(properties, name, LongValue(value));
    }

    /** Loads a raw header line: each comma-separated column, trimmed, is
        stored under the next header key; a blank column stops the load with
        a parsing error, leaving the columns before it stored. */
    method Load(lineNumber: int, line: string) returns (r: Outcome<ParsingError>)
      requires Valid()
      modifies this
      ensures Valid()
      ensures FirstMissingHeader(Split(line, ',')).None? ==>
        r == Pass && properties == StoreNames(old(properties), ColumnNames(Split(line, ',')))
      ensures FirstMissingHeader(Split(line, ',')).Some? ==>
        var k := FirstMissingHeader(Split(line, ',')).value;
        r == Fail(ParsingError(lineNumber, None, k))
        && properties == StoreNames(old(properties), ColumnNames(Split(line, ',')[..k]))
    {
      var columns := Split(line, ',');
      ghost var start := properties;
      var i := 0;
      while i < |columns|
        invariant 0 <= i <= |columns|
        invariant Valid()
        invariant FirstMissingHeader(columns[..i]).None?
        invariant properties == StoreNames(start, ColumnNames(columns[..i]))
      {
        var name := Trim(columns[i]);
        if name == [] {
          MissingHeaderAt(columns, i);
          return Fail(ParsingError(lineNumber, None, i));
        }
        NoMissingHeaderStep(columns, i);
        if EqualsIgnoreCase(name, TIMESTAMP_PROPERTY_NAME) {
          name := TIMESTAMP_PROPERTY_NAME;
        }
        assert name == ColumnName(columns[i]);
        StoreNamesStep(start, columns, i);
        SetStringProperty(HeaderKey(i), name);
        i := i + 1;
      }
      assert columns[..i] == columns;
      assert FirstMissingHeader(columns).None?;
      return Pass;
    }
  }

  /** Storing one more column sets the next header key to that column's name. */
  lemma StoreNamesStep(props: seq<Property>, columns: seq<string>, i: nat)
    requires i < |columns|
    ensures StoreNames(props, ColumnNames(columns[..i + 1]))
      == SetProperty(StoreNames(props, ColumnNames(columns[..i])), HeaderKey(i), StringValue(ColumnName(columns[i])))
  {
    var names := ColumnNames(columns[..i + 1]);
    assert |names| == i + 1 && names[i] == ColumnName(columns[i]);
    assert names[..i] == ColumnNames(columns[..i]) by {
      assert forall k :: 0 <= k < i ==> columns[..i + 1][k] == columns[..i][k];
    }
  }

  /** The first blank column is the one after all the non-blank ones. */
  lemma MissingHeaderAt(columns: seq<string>, k: nat)
    requires k < |columns| && AllBlank(columns[k])
    requires FirstMissingHeader(columns[..k]).None?
    ensures FirstMissingHeader(columns) == Some(k)
  {
    assert forall j :: 0 <= j < k ==> columns[..k][j] == columns[j];
    FirstMissingHeaderOfPrefix(columns, k);
  }

  lemma NoMissingHeaderStep(columns: seq<string>, k: nat)
    requires k < |columns| && !AllBlank(columns[k])
    requires FirstMissingHeader(columns[..k]).None?
    ensures FirstMissingHeader(columns[..k + 1]).None?
  {
    var p := columns[..k + 1];
    assert forall j :: 0 <= j < k ==> columns[..k][j] == p[j];
  }

  lemma {:induction false} FirstMissingHeaderOfPrefix(columns: seq<string>, k: nat)
    requires k < |columns| && AllBlank(columns[k])
    requires forall j :: 0 <= j < k ==> !AllBlank(columns[j])
    ensures FirstMissingHeader(columns) == Some(k)
  {
    if k > 0 {
      FirstMissingHeaderOfPrefix(columns[1..], k - 1);
    }
  }
}
