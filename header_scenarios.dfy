/** The header codec on the concrete blocks and header lines the codec's own
    test suite exercises. */
module HeaderScenarios {
  import opened Wrappers
  import opened Text
  import opened Events
  import opened Fields
  import opened HeaderOrder
  import opened Headers
  import opened HeaderLaws
  import opened LoadLaws

  /** A timestamp field followed by a string, an int, a long and a float field. */
  function SampleFields(): seq<CSVField>
  {
    [ TimestampField(None),
      PlainField("some string", StringType, None),
      PlainField("some int", IntType, None),
      PlainField("some long", LongType, None),
      PlainField("some float", FloatType, None) ]
  }

  /** The keys of columns 0..4, as the test spells them: the prefix followed
      by the column number. */
  lemma KeysSpelled()
    ensures HeaderKey(0) == HEADER_NAME_PREFIX + "0" && HeaderKey(1) == HEADER_NAME_PREFIX + "1"
    ensures HeaderKey(2) == HEADER_NAME_PREFIX + "2" && HeaderKey(3) == HEADER_NAME_PREFIX + "3"
    ensures HeaderKey(4) == HEADER_NAME_PREFIX + "4"
  {
  }

  /** Writing the sample fields at line 7 gives the line number followed by
      one tagged token per field, under keys 0..4. */
  lemma ConstructorScenario()
    ensures EncodedProperties(7, SampleFields()) ==
      [ Property(LINE_NUMBER_PROPERTY_NAME, LongValue(7)),
        Property(HEADER_NAME_PREFIX + "0", StringValue(TIMESTAMP_PROPERTY_NAME + "(time)")),
        Property(HEADER_NAME_PREFIX + "1", StringValue("some string(string)")),
        Property(HEADER_NAME_PREFIX + "2", StringValue("some int(int)")),
        Property(HEADER_NAME_PREFIX + "3", StringValue("some long(long)")),
        Property(HEADER_NAME_PREFIX + "4", StringValue("some float(float)")) ]
  {
    KeysSpelled();
    SampleTokenEncoded(0);
    SampleTokenEncoded(1);
    SampleTokenEncoded(2);
    SampleTokenEncoded(3);
    SampleTokenEncoded(4);
    EncodedFive(7, SampleFields(), TIMESTAMP_PROPERTY_NAME + "(time)", "some string(string)", "some int(int)",
      "some long(long)", "some float(float)");
  }

  function SampleTokens(): seq<string>
  {
    [TIMESTAMP_PROPERTY_NAME + "(time)", "some string(string)", "some int(int)", "some long(long)", "some float(float)"]
  }

  /** Each sample field is written as its name with its type tag in parentheses. */
  lemma SampleTokenEncoded(i: nat)
    requires i < 5
    ensures EncodeToken(SampleFields()[i]) == SampleTokens()[i]
  {
    var f := SampleFields()[i];
    if i == 0 {
      TokenSpelled(f, TIMESTAMP_PROPERTY_NAME, TIME_TAG, TIMESTAMP_PROPERTY_NAME + "(time)");
    } else if i == 1 {
      TokenSpelled(f, "some string", "string", "some string(string)");
    } else if i == 2 {
      TokenSpelled(f, "some int", "int", "some int(int)");
    } else if i == 3 {
      TokenSpelled(f, "some long", "long", "some long(long)");
    } else {
      TokenSpelled(f, "some float", "float", "some float(float)");
    }
  }

  lemma TokenSpelled(f: CSVField, name: string, tag: string, token: string)
    requires f.Name() == name && FieldTag(f) == tag && token == name + "(" + tag + ")"
    ensures EncodeToken(f) == token
  {
  }


  /** Five fields are written as the line number and their five tokens under keys 0..4. */
  lemma EncodedFive(lineNumber: int, fs: seq<CSVField>, t0: string, t1: string, t2: string, t3: string, t4: string)
    requires |fs| == 5
    requires EncodeToken(fs[0]) == t0 && EncodeToken(fs[1]) == t1 && EncodeToken(fs[2]) == t2
    requires EncodeToken(fs[3]) == t3 && EncodeToken(fs[4]) == t4
    ensures EncodedProperties(lineNumber, fs) ==
      [ Property(LINE_NUMBER_PROPERTY_NAME, LongValue(lineNumber)),
        Property(HeaderKey(0), StringValue(t0)), Property(HeaderKey(1), StringValue(t1)),
        Property(HeaderKey(2), StringValue(t2)), Property(HeaderKey(3), StringValue(t3)),
        Property(HeaderKey(4), StringValue(t4)) ]
  {
    EncodedLayout(lineNumber, fs);
    var e := EncodedProperties(lineNumber, fs);
    assert e[1] == Property(HeaderKey(0), StringValue(t0));
    assert e[2] == Property(HeaderKey(1), StringValue(t1));
    assert e[3] == Property(HeaderKey(2), StringValue(t2));
    assert e[4] == Property(HeaderKey(3), StringValue(t3));
    assert e[5] == Property(HeaderKey(4), StringValue(t4));
  }

  lemma UnformattedIsNormal(f: CSVField)
    requires f.Format() == None
    ensures Normalize(f) == f
  {
  }

  /** The block written from the sample fields reads back as the sample
      fields; the timestamp field reads as a long-typed timestamp. */
  lemma GetFieldsScenario()
    ensures GetFields(EncodedProperties(7, SampleFields())) == Success(SampleFields())
    ensures SampleFields()[0].Type() == LongType && SampleFields()[0].IsTimestamp()
  {
    var fs := SampleFields();
    assert Normalized(fs) == fs by {
      forall i | 0 <= i < |fs| ensures Normalize(fs[i]) == fs[i] {
        UnformattedIsNormal(fs[i]);
      }
    }
    EncodeDecodeRoundTrip(7, fs);
  }

  /** Header properties 0..4 set among seven unrelated long properties. */
  function MixedBag(): seq<Property>
  {
    [ Property("some-random-property-1", LongValue(1)),
      Property(HeaderKey(0), StringValue("timestamp")),
      Property("some-random-property-2", LongValue(2)),
      Property(HeaderKey(1), StringValue("some string")),
      Property("some-random-property-3", LongValue(3)),
      Property("some-random-property-4", LongValue(4)),
      Property(HeaderKey(2), StringValue("some int(int)")),
      Property("some-random-property-5", LongValue(5)),
      Property(HeaderKey(3), StringValue("some long(long)")),
      Property("some-random-property-6", LongValue(6)),
      Property(HeaderKey(4), StringValue("some float(float)")),
      Property("some-random-property-7", LongValue(7)) ]
  }

  /** The header properties of the mixed bag, in key order. */
  function SampleBlock(): seq<Property>
  {
    [ Property(HeaderKey(0), StringValue("timestamp")),
      Property(HeaderKey(1), StringValue("some string")),
      Property(HeaderKey(2), StringValue("some int(int)")),
      Property(HeaderKey(3), StringValue("some long(long)")),
      Property(HeaderKey(4), StringValue("some float(float)")) ]
  }

  lemma ForeignName(name: string)
    requires name != [] && name[0] != HEADER_NAME_PREFIX[0]
    ensures !IsHeaderKey(name)
  {
  }

  /** A foreign property is dropped by the filter. */
  lemma FilterSkips(props: seq<Property>, k: nat)
    requires k < |props| && !IsHeaderKey(props[k].name)
    ensures HeaderProperties(props[k..]) == HeaderProperties(props[k + 1..])
  {
    assert props[k..][1..] == props[k + 1..];
  }

  /** A header property is kept by the filter, in front of what follows it. */
  lemma FilterKeeps(props: seq<Property>, k: nat, h: seq<Property>, j: nat)
    requires k < |props| && j < |h| && props[k] == h[j] && IsHeaderKey(h[j].name)
    requires HeaderProperties(props[k + 1..]) == h[j + 1..]
    ensures HeaderProperties(props[k..]) == h[j..]
  {
    assert props[k..][1..] == props[k + 1..];
    assert h[j..] == [h[j]] + h[j + 1..];
  }

  /** The first half of the mixed layout keeps its two header properties. */
  lemma FilterFirstHalf(f0: Property, h0: Property, f2: Property, h1: Property, f4: Property, f5: Property)
    requires !IsHeaderKey(f0.name) && !IsHeaderKey(f2.name) && !IsHeaderKey(f4.name) && !IsHeaderKey(f5.name)
    requires IsHeaderKey(h0.name) && IsHeaderKey(h1.name)
    ensures HeaderProperties([f0, h0, f2, h1, f4, f5]) == [h0, h1]
  {
    var b := [f0, h0, f2, h1, f4, f5];
    var h := [h0, h1];
    assert HeaderProperties(b[6..]) == h[2..];
    FilterSkips(b, 5);
    FilterSkips(b, 4);
    FilterKeeps(b, 3, h, 1);
    FilterSkips(b, 2);
    FilterKeeps(b, 1, h, 0);
    FilterSkips(b, 0);
    assert b[0..] == b && h[0..] == h;
  }

  /** The second half of the mixed layout keeps its three header properties. */
  lemma FilterSecondHalf(h2: Property, f7: Property, h3: Property, f9: Property, h4: Property, f11: Property)
    requires !IsHeaderKey(f7.name) && !IsHeaderKey(f9.name) && !IsHeaderKey(f11.name)
    requires IsHeaderKey(h2.name) && IsHeaderKey(h3.name) && IsHeaderKey(h4.name)
    ensures HeaderProperties([h2, f7, h3, f9, h4, f11]) == [h2, h3, h4]
  {
    var b := [h2, f7, h3, f9, h4, f11];
    var h := [h2, h3, h4];
    assert HeaderProperties(b[6..]) == h[3..];
    FilterSkips(b, 5);
    FilterKeeps(b, 4, h, 2);
    FilterSkips(b, 3);
    FilterKeeps(b, 2, h, 1);
    FilterSkips(b, 1);
    FilterKeeps(b, 0, h, 0);
    assert b[0..] == b && h[0..] == h;
  }

  /** Any bag laid out like the mixed bag filters to its five header
      properties, in order. */
  lemma FilterMixedLayout(f0: Property, h0: Property, f2: Property, h1: Property, f4: Property,
                          f5: Property, h2: Property, f7: Property, h3: Property, f9: Property,
                          h4: Property, f11: Property)
    requires !IsHeaderKey(f0.name) && !IsHeaderKey(f2.name) && !IsHeaderKey(f4.name) && !IsHeaderKey(f5.name)
    requires !IsHeaderKey(f7.name) && !IsHeaderKey(f9.name) && !IsHeaderKey(f11.name)
    requires IsHeaderKey(h0.name) && IsHeaderKey(h1.name) && IsHeaderKey(h2.name)
    requires IsHeaderKey(h3.name) && IsHeaderKey(h4.name)
    ensures HeaderProperties([f0, h0, f2, h1, f4, f5, h2, f7, h3, f9, h4, f11]) == [h0, h1, h2, h3, h4]
  {
    var x := [f0, h0, f2, h1, f4, f5];
    var y := [h2, f7, h3, f9, h4, f11];
    FilterFirstHalf(f0, h0, f2, h1, f4, f5);
    FilterSecondHalf(h2, f7, h3, f9, h4, f11);
    HeaderPropertiesConcat(x, y);
    assert x + y == [f0, h0, f2, h1, f4, f5, h2, f7, h3, f9, h4, f11];
    assert [h0, h1] + [h2, h3, h4] == [h0, h1, h2, h3, h4];
  }

  /** Filtering the mixed bag leaves exactly the header properties 0..4. */
  lemma MixedBagHeaders()
    ensures HeaderProperties(MixedBag()) == SampleBlock()
  {
    ForeignName("some-random-property-1");
    ForeignName("some-random-property-2");
    ForeignName("some-random-property-3");
    ForeignName("some-random-property-4");
    ForeignName("some-random-property-5");
    ForeignName("some-random-property-6");
    ForeignName("some-random-property-7");
    FilterMixedLayout(
      Property("some-random-property-1", LongValue(1)), Property(HeaderKey(0), StringValue("timestamp")),
      Property("some-random-property-2", LongValue(2)), Property(HeaderKey(1), StringValue("some string")),
      Property("some-random-property-3", LongValue(3)), Property("some-random-property-4", LongValue(4)),
      Property(HeaderKey(2), StringValue("some int(int)")), Property("some-random-property-5", LongValue(5)),
      Property(HeaderKey(3), StringValue("some long(long)")), Property("some-random-property-6", LongValue(6)),
      Property(HeaderKey(4), StringValue("some float(float)")), Property("some-random-property-7", LongValue(7)));
  }


  lemma BareTimestampParses()
    ensures ParseToken("timestamp") == Success(TimestampField(None))
  {
  }

  lemma BareNameParses()
    ensures ParseToken("some string") == Success(PlainField("some string", StringType, None))
  {
  }

  lemma IntSampleParses()
    ensures ParseToken("some int(int)") == Success(PlainField("some int", IntType, None))
  {
    TaggedSampleParses(PlainField("some int", IntType, None), "some int", "int", "some int(int)");
  }

  lemma LongSampleParses()
    ensures ParseToken("some long(long)") == Success(PlainField("some long", LongType, None))
  {
    TaggedSampleParses(PlainField("some long", LongType, None), "some long", "long", "some long(long)");
  }

  lemma FloatSampleParses()
    ensures ParseToken("some float(float)") == Success(PlainField("some float", FloatType, None))
  {
    TaggedSampleParses(PlainField("some float", FloatType, None), "some float", "float", "some float(float)");
  }

  /** A valid descriptor without a format parses back from its spelled-out token. */
  lemma TaggedSampleParses(f: CSVField, name: string, tag: string, token: string)
    requires ValidField(f) && f.Format() == None
    requires f.Name() == name && FieldTag(f) == tag && token == name + "(" + tag + ")"
    ensures ParseToken(token) == Success(f)
  {
    TokenSpelled(f, name, tag, token);
    TokenRoundTrip(f);
    UnformattedIsNormal(f);
  }

  lemma SampleBlockTokensParse()
    ensures var es := Entries(SampleBlock());
      |es| == 5 && forall i :: 0 <= i < 5 ==> ParseToken(es[i].token) == Success(SampleFields()[i])
  {
    var es := Entries(SampleBlock());
    var fs := SampleFields();
    forall i | 0 <= i < 5 ensures ParseToken(es[i].token) == Success(fs[i]) {
      if i == 0 {
        assert es[0].token == "timestamp";
        BareTimestampParses();
      } else if i == 1 {
        assert es[1].token == "some string";
        BareNameParses();
      } else if i == 2 {
        assert es[2].token == "some int(int)";
        IntSampleParses();
      } else if i == 3 {
        assert es[3].token == "some long(long)";
        LongSampleParses();
      } else {
        assert es[4].token == "some float(float)";
        FloatSampleParses();
      }
    }
  }

  /** The mixed bag's header block reads back as the sample fields: a bare
      "timestamp" as the timestamp field, a bare name as a string field. */
  lemma SampleBlockDecodes()
    ensures GetFields(SampleBlock()) == Success(SampleFields())
  {
    DecodeKeyedInOrder(SampleBlock());
    SampleBlockTokensParse();
    DecodeTokensAll(Entries(SampleBlock()), SampleFields());
  }

  /** The unrelated properties are skipped and the header properties read
      back in key order. */
  lemma MixedBagScenario()
    ensures GetFields(MixedBag()) == Success(SampleFields())
  {
    MixedBagHeaders();
    SampleBlockHeaders();
    SameHeadersSameFields(MixedBag(), SampleBlock());
    SampleBlockDecodes();
  }

  lemma SampleBlockHeaders()
    ensures HeaderProperties(SampleBlock()) == SampleBlock()
  {
    var hs := SampleBlock();
    forall i | 0 <= i < |hs| ensures IsHeaderKey(hs[i].name) {
      if i == 0 { assert hs[i].name == HeaderKey(0); }
      else if i == 1 { assert hs[i].name == HeaderKey(1); }
      else if i == 2 { assert hs[i].name == HeaderKey(2); }
      else if i == 3 { assert hs[i].name == HeaderKey(3); }
      else { assert hs[i].name == HeaderKey(4); }
    }
    HeaderPropertiesOfHeaders(hs);
  }

  /** A lone header property under key 7 is out of sequence, and the error
      names key 7. */
  lemma LoneKeySevenScenario()
    ensures GetFields([Property(HeaderKey(7), StringValue("does not matter"))])
      == Failure(OutOfSequence(HeaderKey(7)))
  {
    var hs := [Property(HeaderKey(7), StringValue("does not matter"))];
    HeaderPropertiesOfHeaders(hs);
    assert Entries(hs) == [Entry(7, HeaderKey(7), "does not matter")];
  }

  /** Keys 0, 1 and 3 without key 2: the error names key 3. */
  lemma MissingKeyTwoScenario()
    ensures GetFields([ Property(HeaderKey(0), StringValue("timestamp")),
                        Property(HeaderKey(1), StringValue("some string")),
                        Property(HeaderKey(3), StringValue("some string")) ])
      == Failure(OutOfSequence(HeaderKey(3)))
  {
    GapBeforeLast(HeaderKey(0), HeaderKey(1), HeaderKey(3), "timestamp", "some string", "some string");
  }

  /** Keys numbered 0, 1 and 3: the sequence check stops at the third. */
  lemma GapBeforeLast(ka: string, kb: string, kc: string, ta: string, tb: string, tc: string)
    requires IsHeaderKey(ka) && IsHeaderKey(kb) && IsHeaderKey(kc)
    requires KeyIndex(ka) == Some(0) && KeyIndex(kb) == Some(1) && KeyIndex(kc) == Some(3)
    ensures GetFields([ Property(ka, StringValue(ta)), Property(kb, StringValue(tb)), Property(kc, StringValue(tc)) ])
      == Failure(OutOfSequence(kc))
  {
    var hs := [ Property(ka, StringValue(ta)), Property(kb, StringValue(tb)), Property(kc, StringValue(tc)) ];
    ThreeHeaders(hs);
    ThreeKeysNumbered(hs);
    var es := ThreeEntries(hs);
    assert es[0].index == 0 && es[1].index == 1 && es[2].index == 3;
    ThreeInOrder(es);
    SecondGapAfterOne(es);
    OutOfSequenceAt(hs, 2);
  }

  lemma ThreeHeaders(hs: seq<Property>)
    requires |hs| == 3 && IsHeaderKey(hs[0].name) && IsHeaderKey(hs[1].name) && IsHeaderKey(hs[2].name)
    ensures HeaderProperties(hs) == hs
  {
    HeaderPropertiesOfHeaders(hs);
  }

  lemma ThreeInOrder(es: seq<Entry>)
    requires |es| == 3 && es[0].index < es[1].index < es[2].index
    ensures SortByIndex(es) == es
  {
    SortInOrder(es);
  }

  lemma ThreeKeysNumbered(hs: seq<Property>)
    requires |hs| == 3
    requires KeyIndex(hs[0].name).Some? && KeyIndex(hs[1].name).Some? && KeyIndex(hs[2].name).Some?
    ensures FirstInvalidKey(hs).None?
  {
    assert hs[1..][1..] == [hs[2]];
  }

  lemma ThreeEntries(hs: seq<Property>) returns (es: seq<Entry>)
    requires |hs| == 3
    ensures es == Entries(hs)
    ensures es == [EntryOf(hs[0]), EntryOf(hs[1]), EntryOf(hs[2])]
  {
    es := Entries(hs);
  }

  /** Entries numbered 0, 1 and something above 2 fail the check at position 2. */
  lemma SecondGapAfterOne(es: seq<Entry>)
    requires |es| == 3 && es[0].index == 0 && es[1].index == 1 && es[2].index > 2
    ensures FirstOutOfSequence(es, 0) == Some(2)
  {
  }

  /** A block of header properties with numbered keys whose sorted entries
      fail the check at k is reported as out of sequence at k's key. */
  lemma OutOfSequenceAt(hs: seq<Property>, k: nat)
    requires HeaderProperties(hs) == hs && FirstInvalidKey(hs).None?
    requires k < |hs| && FirstOutOfSequence(SortByIndex(Entries(hs)), 0) == Some(k)
    ensures GetFields(hs) == Failure(OutOfSequence(SortByIndex(Entries(hs))[k].key))
  {
  }

  /** A header key ending in "blah" is reported as an invalid name. */
  lemma NonNumericKeyScenario()
    ensures GetFields([Property(HEADER_NAME_PREFIX + "blah", StringValue("timestamp"))])
      == Failure(InvalidHeaderPropertyName(HEADER_NAME_PREFIX + "blah"))
  {
    var key := HEADER_NAME_PREFIX + "blah";
    assert IsHeaderKey(key) && key[|HEADER_NAME_PREFIX|..] == "blah";
    assert !IsDigit('b');
    HeaderPropertiesOfHeaders([Property(key, StringValue("timestamp"))]);
  }

  /** A token tagged with an unknown type is reported together with the
      reason it does not parse. */
  lemma UnknownTypeScenario()
    ensures GetFields([Property(HeaderKey(0), StringValue("something(no-such-type)"))])
      == Failure(InvalidSpecification("something(no-such-type)",
                   FormatError("something(no-such-type)", UnknownType("no-such-type"))))
  {
    assert "something" + "(" + "no-such-type" + ")" == "something(no-such-type)";
    UnknownTagRejected("something", "no-such-type");
    LoneBadToken(HeaderKey(0), "something(no-such-type)", FormatError("something(no-such-type)", UnknownType("no-such-type")));
  }

  /** A block of one property under key 0 whose token does not parse fails with that token's error. */
  lemma LoneBadToken(key: string, token: string, cause: FormatError)
    requires IsHeaderKey(key) && KeyIndex(key) == Some(0)
    requires ParseToken(token) == Failure(cause)
    ensures GetFields([Property(key, StringValue(token))]) == Failure(InvalidSpecification(token, cause))
  {
    var hs := [Property(key, StringValue(token))];
    HeaderPropertiesOfHeaders(hs);
    assert Entries(hs) == [Entry(0, key, token)];
    SortInOrder(Entries(hs));
  }

  // ------------------------------------------------------------ raw lines

  // The header-line lemmas take the line as a parameter pinned by their
  // precondition: their proofs then reach the columns through SplitThree
  // instead of unfolding Split character by character over a literal.

  /** A name with non-blank ends, padded with blanks on either side, is stored
      under that name unless it spells the timestamp name. */
  lemma PaddedColumnName(before: string, t: string, after: string)
    requires AllBlank(before) && AllBlank(after)
    requires t != [] && !IsBlank(t[0]) && !IsBlank(t[|t| - 1])
    requires !EqualsIgnoreCase(t, TIMESTAMP_PROPERTY_NAME)
    ensures ColumnName(before + t + after) == t
  {
    TrimSurroundingBlanks(before, t, after);
  }

  /** A capital letter, alone or after one space, is stored under that letter. */
  lemma PaddedLetter(pad: string, t: string)
    requires pad == [] || pad == " "
    requires |t| == 1 && 'A' <= t[0] <= 'Z'
    ensures ColumnName(pad + t) == t
  {
    assert pad + t + [] == pad + t;
    PaddedColumnName(pad, t, []);
  }

  /** A column spelled exactly like the timestamp name is stored under it. */
  lemma TimestampColumnName(column: string)
    requires column == TIMESTAMP_PROPERTY_NAME
    ensures ColumnName(column) == TIMESTAMP_PROPERTY_NAME
  {
    assert [] + column + [] == column;
    TrimSurroundingBlanks([], column, []);
    EqualsIgnoreCaseIff(column, column);
  }

  /** Three names stored into an empty bag land under keys 0, 1 and 2. */
  lemma StoreThreeNames(nx: string, ny: string, nz: string)
    ensures StoreNames([], [nx, ny, nz]) ==
              [ Property(HeaderKey(0), StringValue(nx)),
                Property(HeaderKey(1), StringValue(ny)),
                Property(HeaderKey(2), StringValue(nz)) ]
  {
    LoadIntoEmptyBag([nx, ny, nz]);
  }

  /** Three columns whose names are known are stored into an empty bag under
      keys 0, 1 and 2. */
  lemma StoreThreeColumns(x: string, y: string, z: string, nx: string, ny: string, nz: string)
    requires ColumnName(x) == nx && ColumnName(y) == ny && ColumnName(z) == nz
    ensures StoreNames([], ColumnNames([x, y, z])) ==
              [ Property(HeaderKey(0), StringValue(nx)),
                Property(HeaderKey(1), StringValue(ny)),
                Property(HeaderKey(2), StringValue(nz)) ]
  {
    ColumnNamesThree(x, y, z, nx, ny, nz);
    StoreThreeNames(nx, ny, nz);
  }

  /** Columns are named one by one. */
  lemma ColumnNamesPointwise(columns: seq<string>, names: seq<string>)
    requires |columns| == |names| && forall i :: 0 <= i < |columns| ==> ColumnName(columns[i]) == names[i]
    ensures ColumnNames(columns) == names
  {
  }

  lemma ColumnNamesThree(x: string, y: string, z: string, nx: string, ny: string, nz: string)
    requires ColumnName(x) == nx && ColumnName(y) == ny && ColumnName(z) == nz
    ensures ColumnNames([x, y, z]) == [nx, ny, nz]
  {
    var columns, names := [x, y, z], [nx, ny, nz];
    forall i | 0 <= i < 3 ensures ColumnName(columns[i]) == names[i] {
      if i == 0 {
        assert columns[i] == x;
      } else if i == 1 {
        assert columns[i] == y;
      } else {
        assert columns[i] == z;
      }
    }
    ColumnNamesPointwise(columns, names);
  }

  /** Three non-blank columns: no header is missing. */
  lemma NoBlankColumn(x: string, y: string, z: string)
    requires !AllBlank(x) && !AllBlank(y) && !AllBlank(z)
    ensures FirstMissingHeader([x, y, z]).None?
  {
    assert forall j :: 0 <= j < 3 ==> !AllBlank([x, y, z][j]);
  }

  /** Of three columns, the blank one after non-blank ones is the first missing header. */
  lemma BlankThirdColumn(x: string, y: string, z: string)
    requires !AllBlank(x) && !AllBlank(y) && AllBlank(z)
    ensures FirstMissingHeader([x, y, z]) == Some(2)
  {
    assert [x, y, z][1..] == [y, z];
    assert [y, z][1..] == [z];
    assert FirstMissingHeader([z]) == Some(0);
    assert FirstMissingHeader([y, z]) == Some(1);
  }

  /** "timestamp, A, B" splits into three columns, the blanks after each comma kept. */
  lemma SplitTimestampAB(line: string)
    requires line == "timestamp, A, B"
    ensures Split(line, ',') == [TIMESTAMP_PROPERTY_NAME, " A", " B"]
  {
    var a: string, b: string, c: string := TIMESTAMP_PROPERTY_NAME, " A", " B";
    assert line == a + [','] + b + [','] + c;
    SplitThree(a, b, c, ',');
  }

  /** Loading "timestamp, A, B" into an empty bag stores the timestamp name,
      then A and B, under keys 0, 1 and 2. */
  lemma LoadScenario(line: string)
    requires line == "timestamp, A, B"
    ensures FirstMissingHeader(Split(line, ',')).None?
    ensures StoreNames([], ColumnNames(Split(line, ','))) ==
              [ Property(HEADER_NAME_PREFIX + "0", StringValue(TIMESTAMP_PROPERTY_NAME)),
                Property(HEADER_NAME_PREFIX + "1", StringValue("A")),
                Property(HEADER_NAME_PREFIX + "2", StringValue("B")) ]
  {
    KeysSpelled();
    SplitTimestampAB(line);
    TimestampColumnName(TIMESTAMP_PROPERTY_NAME);
    var pad: string, b: string, c: string := " ", "A", "B";
    assert " A" == pad + b && " B" == pad + c;
    PaddedLetter(pad, b);
    PaddedLetter(pad, c);
    LoadThree(line, TIMESTAMP_PROPERTY_NAME, pad + b, pad + c, TIMESTAMP_PROPERTY_NAME, b, c);
  }

  /** "timestamp, , B": the load fails at column 1, the blank one. */
  lemma BlankMiddleColumnScenario(line: string)
    requires line == "timestamp, , B"
    ensures FirstMissingHeader(Split(line, ',')) == Some(1)
  {
    var a: string, pad: string, c: string := TIMESTAMP_PROPERTY_NAME, " ", "B";
    assert line == a + [','] + pad + [','] + (pad + c);
    SplitThree(a, pad, pad + c, ',');
    var columns := Split(line, ',');
    assert columns == [a, pad, pad + c];
    assert columns[0][0] == 't';
  }

  /** "timestamp, A, ": the trailing blank column is kept, and the load fails at column 2. */
  lemma BlankLastColumnScenario(line: string)
    requires line == "timestamp, A, "
    ensures FirstMissingHeader(Split(line, ',')) == Some(2)
  {
    var a: string, pad: string, b: string := TIMESTAMP_PROPERTY_NAME, " ", "A";
    assert line == a + [','] + (pad + b) + [','] + pad;
    SplitThree(a, pad + b, pad, ',');
    assert !IsBlank(a[0]);
    assert !IsBlank((pad + b)[1]);
    BlankThirdColumn(a, pad + b, pad);
  }

  /** "A, B, C" splits into three columns. */
  lemma SplitABC(line: string)
    requires line == "A, B, C"
    ensures Split(line, ',') == ["A", " B", " C"]
  {
    var a: string, b: string, c: string := "A", " B", " C";
    assert line == a + [','] + b + [','] + c;
    SplitThree(a, b, c, ',');
  }

  /** A header line without a timestamp column: "A, B, C" loads as three plain columns. */
  lemma NoTimestampScenario(line: string)
    requires line == "A, B, C"
    ensures FirstMissingHeader(Split(line, ',')).None?
    ensures StoreNames([], ColumnNames(Split(line, ','))) ==
              [ Property(HEADER_NAME_PREFIX + "0", StringValue("A")),
                Property(HEADER_NAME_PREFIX + "1", StringValue("B")),
                Property(HEADER_NAME_PREFIX + "2", StringValue("C")) ]
  {
    KeysSpelled();
    SplitABC(line);
    var pad: string, a: string, b: string, c: string := " ", "A", "B", "C";
    assert "A" == [] + a && " B" == pad + b && " C" == pad + c;
    PaddedLetter([], a);
    PaddedLetter(pad, b);
    PaddedLetter(pad, c);
    LoadThree(line, [] + a, pad + b, pad + c, a, b, c);
  }

  /** A line of three columns with non-empty names loads them under keys 0, 1 and 2. */
  lemma LoadThree(line: string, x: string, y: string, z: string, nx: string, ny: string, nz: string)
    requires Split(line, ',') == [x, y, z]
    requires ColumnName(x) == nx && ColumnName(y) == ny && ColumnName(z) == nz
    requires nx != [] && ny != [] && nz != []
    ensures FirstMissingHeader(Split(line, ',')).None?
    ensures StoreNames([], ColumnNames(Split(line, ','))) ==
              [ Property(HeaderKey(0), StringValue(nx)),
                Property(HeaderKey(1), StringValue(ny)),
                Property(HeaderKey(2), StringValue(nz)) ]
  {
    NoBlankColumn(x, y, z);
    StoreThreeColumns(x, y, z, nx, ny, nz);
  }

  // ------------------------------------------------------- through the codec

  /** The mixed-bag case driven through the codec object: a fresh codec, the
      twelve setter calls in the order the test makes them, then the field
      descriptors read back from its bag. */
  method MixedBagThroughCodec() returns (r: Result<seq<CSVField>, HeaderError>)
    ensures r == Success(SampleFields())
  {
    var h := new CSVHeaders();
    MixedBagNamesDistinct();
    assert h.properties == MixedBag()[..0];
    SetFirstFour(h);
    SetMiddleFour(h);
    SetLastFour(h);
    assert MixedBag()[..12] == MixedBag();
    MixedBagScenario();
    r := GetFields(h.properties);
  }

  /** The test's first four setter calls. */
  method SetFirstFour(h: CSVHeaders)
    requires h.Valid() && NamesDistinct(MixedBag()) && h.properties == MixedBag()[..0]
    modifies h
    ensures h.Valid() && h.properties == MixedBag()[..4]
  {
    SetNextLong(h, MixedBag(), 0, "some-random-property-1", 1);
    SetNextString(h, MixedBag(), 1, HeaderKey(0), "timestamp");
    SetNextLong(h, MixedBag(), 2, "some-random-property-2", 2);
    SetNextString(h, MixedBag(), 3, HeaderKey(1), "some string");
  }

  /** The test's fifth to eighth setter calls. */
  method SetMiddleFour(h: CSVHeaders)
    requires h.Valid() && NamesDistinct(MixedBag()) && h.properties == MixedBag()[..4]
    modifies h
    ensures h.Valid() && h.properties == MixedBag()[..8]
  {
    SetNextLong(h, MixedBag(), 4, "some-random-property-3", 3);
    SetNextLong(h, MixedBag(), 5, "some-random-property-4", 4);
    SetNextString(h, MixedBag(), 6, HeaderKey(2), "some int(int)");
    SetNextLong(h, MixedBag(), 7, "some-random-property-5", 5);
  }

  /** The test's last four setter calls. */
  method SetLastFour(h: CSVHeaders)
    requires h.Valid() && NamesDistinct(MixedBag()) && h.properties == MixedBag()[..8]
    modifies h
    ensures h.Valid() && h.properties == MixedBag()[..12]
  {
    SetNextString(h, MixedBag(), 8, HeaderKey(3), "some long(long)");
    SetNextLong(h, MixedBag(), 9, "some-random-property-6", 6);
    SetNextString(h, MixedBag(), 10, HeaderKey(4), "some float(float)");
    SetNextLong(h, MixedBag(), 11, "some-random-property-7", 7);
  }

  /** One long setter call of a scenario: when the codec holds the part of a
      bag with distinct names before position k, and that position holds this
      long property, the call extends the codec's bag by it. */
  method SetNextLong(h: CSVHeaders, ghost bag: seq<Property>, ghost k: nat, name: string, value: int)
    requires h.Valid() && NamesDistinct(bag) && k < |bag|
    requires h.properties == bag[..k] && bag[k] == Property(name, LongValue(value))
    modifies h
    ensures h.Valid() && h.properties == bag[..k + 1]
  {
    SetNextOfDistinct(bag, k);
    h.SetLongProperty(name, value);
  }

  /** One string setter call of a scenario, as SetNextLong. */
  method SetNextString(h: CSVHeaders, ghost bag: seq<Property>, ghost k: nat, name: string, value: string)
    requires h.Valid() && NamesDistinct(bag) && k < |bag|
    requires h.properties == bag[..k] && bag[k] == Property(name, StringValue(value))
    modifies h
    ensures h.Valid() && h.properties == bag[..k + 1]
  {
    SetNextOfDistinct(bag, k);
    h.SetStringProperty(name, value);
  }

  /** In a bag with distinct names, setting the next property of the bag onto
      the part before it appends that property. */
  lemma SetNextOfDistinct(bag: seq<Property>, k: nat)
    requires NamesDistinct(bag) && k < |bag|
    ensures SetProperty(bag[..k], bag[k].name, bag[k].value) == bag[..k + 1]
  {
    assert FindName(bag[..k], bag[k].name).None?;
    assert bag[..k] + [Property(bag[k].name, bag[k].value)] == bag[..k + 1];
  }

  /** The twelve properties of the mixed bag have twelve different names:
      each name gives back its own position in the bag. */
  lemma MixedBagNamesDistinct()
    ensures NamesDistinct(MixedBag())
  {
    var b := MixedBag();
    forall i | 0 <= i < |b| ensures MixedPosition(b[i].name) == i {
      if i == 1 || i == 3 || i == 6 || i == 8 || i == 10 {
        HeaderKeyPosition(i);
      } else {
        ForeignNamePosition(i);
      }
    }
  }

  lemma HeaderKeyPosition(i: nat)
    requires i == 1 || i == 3 || i == 6 || i == 8 || i == 10
    ensures MixedPosition(MixedBag()[i].name) == i
  {
    assert IsHeaderKey(MixedBag()[i].name);
  }

  lemma ForeignNamePosition(i: nat)
    requires i == 0 || i == 2 || i == 4 || i == 5 || i == 7 || i == 9 || i == 11
    ensures MixedPosition(MixedBag()[i].name) == i
  {
    ForeignName(MixedBag()[i].name);
  }

  /** Where a name stands in the mixed bag. */
  function MixedPosition(name: string): int
  {
    if IsHeaderKey(name) then
      var k := KeyIndex(name);
      if k == Some(0) then 1 else if k == Some(1) then 3 else if k == Some(2) then 6
      else if k == Some(3) then 8 else 10
    else if name == "some-random-property-1" then 0
    else if name == "some-random-property-2" then 2
    else if name == "some-random-property-3" then 4
    else if name == "some-random-property-4" then 5
    else if name == "some-random-property-5" then 7
    else if name == "some-random-property-6" then 9
    else 11
  }

  /** Loading "timestamp, A, B" at line 7 into a fresh codec passes and leaves
      exactly the three column properties in its bag. */
  method LoadThroughCodec() returns (r: Outcome<ParsingError>, props: seq<Property>)
    ensures r == Pass
    ensures props == [ Property(HEADER_NAME_PREFIX + "0", StringValue(TIMESTAMP_PROPERTY_NAME)),
                       Property(HEADER_NAME_PREFIX + "1", StringValue("A")),
                       Property(HEADER_NAME_PREFIX + "2", StringValue("B")) ]
  {
    KeysSpelled();
    var h := new CSVHeaders();
    var line := "timestamp, A, B";
    LoadScenario(line);
    r := h.Load(7, line);
    props := h.properties;
  }

  /** Loading "timestamp, , B" at line 7 into a fresh codec fails with line 7,
      no position in the line and missing column 1. */
  method BlankMiddleColumnThroughCodec() returns (r: Outcome<ParsingError>)
    ensures r == Fail(ParsingError(7, None, 1))
  {
    var h := new CSVHeaders();
    var line := "timestamp, , B";
    BlankMiddleColumnScenario(line);
    r := h.Load(7, line);
  }
}
