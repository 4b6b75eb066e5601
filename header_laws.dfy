/** What the header codec promises: the block it writes reads back as the
    fields it was written from, the surrounding properties and the order the
    properties arrived in do not matter, each failure names its culprit, and
    a loaded header line reads back as its columns. */
module HeaderLaws {
  import opened Wrappers
  import opened Text
  import opened Events
  import opened Fields
  import opened HeaderOrder
  import opened Headers

  // ------------------------------------------------- the header properties

  lemma {:induction false} HeaderPropertiesConcat(a: seq<Property>, b: seq<Property>)
    ensures HeaderProperties(a + b) == HeaderProperties(a) + HeaderProperties(b)
  {
    if a == [] {
      assert a + b == b;
    } else {
      var h := if IsHeaderKey(a[0].name) then [a[0]] else [];
      assert HeaderProperties(a) == h + HeaderProperties(a[1..]);
      assert (a + b)[0] == a[0] && (a + b)[1..] == a[1..] + b;
      assert HeaderProperties(a + b) == h + HeaderProperties(a[1..] + b);
      HeaderPropertiesConcat(a[1..], b);
      assert h + (HeaderProperties(a[1..]) + HeaderProperties(b)) == (h + HeaderProperties(a[1..])) + HeaderProperties(b);
    }
  }

  lemma {:induction false} HeaderPropertiesOfHeaders(hs: seq<Property>)
    requires forall i :: 0 <= i < |hs| ==> IsHeaderKey(hs[i].name)
    ensures HeaderProperties(hs) == hs
  {
    if hs != [] {
      HeaderPropertiesOfHeaders(hs[1..]);
    }
  }

  /** Bags with the same header properties decode alike. */
  lemma SameHeadersSameFields(a: seq<Property>, b: seq<Property>)
    requires HeaderProperties(a) == HeaderProperties(b)
    ensures GetFields(a) == GetFields(b)
  {
  }

  /** Decoding sees only the header properties of a bag. */
  lemma OnlyHeaderPropertiesMatter(props: seq<Property>)
    ensures GetFields(props) == GetFields(HeaderProperties(props))
  {
    HeaderPropertiesOfHeaders(HeaderProperties(props));
    SameHeadersSameFields(props, HeaderProperties(props));
  }

  /** A property that is not a header property changes nothing about the
      decoded fields, wherever it sits in the bag. */
  lemma ForeignPropertyIgnored(a: seq<Property>, p: Property, b: seq<Property>)
    requires !IsHeaderKey(p.name)
    ensures GetFields(a + [p] + b) == GetFields(a + b)
  {
    var ap := a + [p];
    assert HeaderProperties(ap + b) == HeaderProperties(a + b) by {
      assert [p][1..] == [];
      assert HeaderProperties([p]) == [];
      HeaderPropertiesConcat(a, [p]);
      assert HeaderProperties(ap) == HeaderProperties(a);
      HeaderPropertiesConcat(ap, b);
      HeaderPropertiesConcat(a, b);
    }
    SameHeadersSameFields(ap + b, a + b);
  }

  // ---------------------------------------------------- in-order blocks

  lemma {:induction false} SortInOrder(es: seq<Entry>)
    requires forall i, j :: 0 <= i < j < |es| ==> es[i].index < es[j].index
    ensures SortByIndex(es) == es
  {
    if es != [] {
      SortInOrder(es[1..]);
      assert es == [es[0]] + es[1..];
    }
  }

  /** Header properties written under keys 0, 1, 2, … decode their tokens in
      that order. */
  lemma DecodeKeyedInOrder(hs: seq<Property>)
    requires forall i :: 0 <= i < |hs| ==> hs[i].name == HeaderKey(i)
    ensures GetFields(hs) == DecodeTokens(Entries(hs))
  {
    HeaderPropertiesOfHeaders(hs);
    assert FirstInvalidKey(hs).None?;
    var es := Entries(hs);
    assert forall i :: 0 <= i < |es| ==> es[i].index == i;
    SortInOrder(es);
  }

  /** Tokens that each parse decode to the fields they parse to. */
  lemma DecodeTokensAll(es: seq<Entry>, fs: seq<CSVField>)
    requires |es| == |fs|
    requires forall i :: 0 <= i < |es| ==> ParseToken(es[i].token) == Success(fs[i])
    ensures DecodeTokens(es) == Success(fs)
  {
    var r := DecodeTokens(es);
    assert r.Success?;
    assert r.value == fs;
  }

  lemma DecodeInOrder(tokens: seq<string>)
    ensures GetFields(ColumnProperties(tokens, 0)) == DecodeTokens(Entries(ColumnProperties(tokens, 0)))
  {
    DecodeKeyedInOrder(ColumnProperties(tokens, 0));
  }

  // ----------------------------------------------------------- round trip

  /** A written block is the line number followed by field i's token under
      key i, for every field in order. */
  lemma EncodedLayout(lineNumber: int, fields: seq<CSVField>)
    ensures var e := EncodedProperties(lineNumber, fields);
      && |e| == |fields| + 1
      && e[0] == Property(LINE_NUMBER_PROPERTY_NAME, LongValue(lineNumber))
      && forall i :: 0 <= i < |fields| ==> e[i + 1] == Property(HeaderKey(i), StringValue(EncodeToken(fields[i])))
  {
    var e := EncodedProperties(lineNumber, fields);
    var cols := ColumnProperties(Tokens(fields), 0);
    assert |e| == |fields| + 1 && e[1..] == cols;
    forall i | 0 <= i < |fields|
      ensures e[i + 1] == Property(HeaderKey(i), StringValue(EncodeToken(fields[i])))
    {
      assert e[i + 1] == cols[i];
    }
  }

  function Normalized(fields: seq<CSVField>): (r: seq<CSVField>)
    ensures |r| == |fields| && forall i :: 0 <= i < |r| ==> r[i] == Normalize(fields[i])
  {
    seq(|fields|, i requires 0 <= i < |fields| => Normalize(fields[i]))
  }

  /** The block written from fields reads back as those fields: same names,
      types and timestamp flags in the same order, without their formats. */
  lemma EncodeDecodeRoundTrip(lineNumber: int, fields: seq<CSVField>)
    requires forall i :: 0 <= i < |fields| ==> ValidField(fields[i])
    ensures GetFields(EncodedProperties(lineNumber, fields)) == Success(Normalized(fields))
    ensures var fs := GetFields(EncodedProperties(lineNumber, fields)).value;
      |fs| == |fields| &&
      forall i :: 0 <= i < |fs| ==>
        fs[i].Name() == fields[i].Name() && fs[i].Type() == fields[i].Type()
        && fs[i].IsTimestamp() == fields[i].IsTimestamp() && fs[i].Format() == None
  {
    var line := Property(LINE_NUMBER_PROPERTY_NAME, LongValue(lineNumber));
    var hs := ColumnProperties(Tokens(fields), 0);
    assert HeaderProperties(EncodedProperties(lineNumber, fields)) == HeaderProperties(hs) by {
      LineNumberIsNotHeaderKey();
      HeaderPropertiesConcat([line], hs);
      assert HeaderProperties([line]) == [];
    }
    SameHeadersSameFields(EncodedProperties(lineNumber, fields), hs);
    DecodeInOrder(Tokens(fields));
    EncodedTokensDecode(fields);
  }

  /** The tokens written for valid fields parse back to the fields without their formats. */
  lemma EncodedTokensDecode(fields: seq<CSVField>)
    requires forall i :: 0 <= i < |fields| ==> ValidField(fields[i])
    ensures DecodeTokens(Entries(ColumnProperties(Tokens(fields), 0))) == Success(Normalized(fields))
  {
    var es := Entries(ColumnProperties(Tokens(fields), 0));
    var fs := Normalized(fields);
    forall i | 0 <= i < |es| ensures ParseToken(es[i].token) == Success(fs[i]) {
      assert es[i].token == EncodeToken(fields[i]);
      TokenRoundTrip(fields[i]);
    }
    DecodeTokensAll(es, fs);
  }

  // ------------------------------------------------ when decoding succeeds

  /** Every header key of the bag ends in a number. */
  predicate KeysNumbered(props: seq<Property>)
  {
    forall p :: p in props && IsHeaderKey(p.name) ==> KeyIndex(p.name).Some?
  }

  /** Every header property of the bag holds a token that parses. */
  predicate TokensParse(props: seq<Property>)
  {
    forall p :: p in props && IsHeaderKey(p.name) ==> ParseToken(TokenOf(p.value)).Success?
  }

  /** Each sorted entry comes from some header property ... */
  lemma SortedEntryOrigin(hs: seq<Property>, i: nat)
    requires i < |hs|
    ensures exists j :: 0 <= j < |hs| && SortByIndex(Entries(hs))[i] == EntryOf(hs[j])
  {
    var s := SortByIndex(Entries(hs));
    assert s[i] in multiset(Entries(hs));
    var j :| 0 <= j < |hs| && Entries(hs)[j] == s[i];
  }

  /** ... and each header property's entry sits somewhere in the sorted order. */
  lemma EntryDestination(hs: seq<Property>, j: nat)
    requires j < |hs|
    ensures exists i :: 0 <= i < |hs| && SortByIndex(Entries(hs))[i] == EntryOf(hs[j])
  {
    var s := SortByIndex(Entries(hs));
    assert Entries(hs)[j] in multiset(s);
    var i :| 0 <= i < |s| && s[i] == Entries(hs)[j];
  }

  lemma KeysNumberedIff(props: seq<Property>)
    ensures FirstInvalidKey(HeaderProperties(props)).None? <==> KeysNumbered(props)
  {
    HeaderPropertiesMembers(props);
    var hs := HeaderProperties(props);
    if FirstInvalidKey(hs).None? {
      forall p | p in props && IsHeaderKey(p.name) ensures KeyIndex(p.name).Some? {
        assert p in hs;
      }
    }
  }

  predicate SortedTokensParse(props: seq<Property>)
  {
    var s := SortByIndex(Entries(HeaderProperties(props)));
    forall i :: 0 <= i < |s| ==> ParseToken(s[i].token).Success?
  }

  lemma BagTokensFromSorted(props: seq<Property>)
    requires SortedTokensParse(props)
    ensures TokensParse(props)
  {
    HeaderPropertiesMembers(props);
    var hs := HeaderProperties(props);
    forall p | p in props && IsHeaderKey(p.name) ensures ParseToken(TokenOf(p.value)).Success? {
      var j :| 0 <= j < |hs| && hs[j] == p;
      EntryDestination(hs, j);
    }
  }

  lemma SortedTokensFromBag(props: seq<Property>)
    requires TokensParse(props)
    ensures SortedTokensParse(props)
  {
    HeaderPropertiesMembers(props);
    var hs := HeaderProperties(props);
    var s := SortByIndex(Entries(hs));
    forall i | 0 <= i < |s| ensures ParseToken(s[i].token).Success? {
      SortedEntryOrigin(hs, i);
      var j :| 0 <= j < |hs| && s[i] == EntryOf(hs[j]);
      assert hs[j] in hs;
    }
  }

  /** The sorted entries hold the tokens of the header properties, so all of
      them parse exactly when every header token parses. */
  lemma SortedTokensParseIff(props: seq<Property>)
    ensures SortedTokensParse(props) <==> TokensParse(props)
  {
    if SortedTokensParse(props) {
      BagTokensFromSorted(props);
    }
    if TokensParse(props) {
      SortedTokensFromBag(props);
    }
  }

  /** Decoding succeeds exactly when every header key ends in a number, those
      numbers are 0..N-1 once each for N header properties, and every header
      token parses. */
  lemma DecodeSucceedsIff(props: seq<Property>)
    ensures GetFields(props).Success? <==>
      KeysNumbered(props) && Contiguous(Entries(HeaderProperties(props))) && TokensParse(props)
  {
    KeysNumberedIff(props);
    SequenceCheckIff(Entries(HeaderProperties(props)));
    SortedTokensParseIff(props);
  }

  /** After a successful decode, the header property under key k holds the
      token of field k, and every field has its key. */
  lemma DecodedFieldsByIndex(props: seq<Property>, fs: seq<CSVField>)
    requires GetFields(props) == Success(fs)
    ensures forall p :: p in props && IsHeaderKey(p.name) ==>
      KeyIndex(p.name).Some? && KeyIndex(p.name).value < |fs|
      && ParseToken(TokenOf(p.value)) == Success(fs[KeyIndex(p.name).value])
    ensures forall i :: 0 <= i < |fs| ==> exists p :: p in props && KeyIndex(p.name) == Some(i)
  {
    var hs := HeaderProperties(props);
    var s := SortByIndex(Entries(hs));
    assert FirstInvalidKey(hs).None? && FirstOutOfSequence(s, 0).None? && DecodeTokens(s) == Success(fs);
    assert KeysNumbered(props) by { KeysNumberedIff(props); }
    forall p | p in props && IsHeaderKey(p.name)
      ensures KeyIndex(p.name).Some? && KeyIndex(p.name).value < |fs|
      ensures ParseToken(TokenOf(p.value)) == Success(fs[KeyIndex(p.name).value])
    {
      var i := PropertyDestination(props, p);
      assert s[i].index == i;
    }
    forall i | 0 <= i < |fs| ensures exists p :: p in props && KeyIndex(p.name) == Some(i) {
      var p := SortedEntryProperty(props, i);
      assert s[i].index == i;
    }
  }

  /** Where a header property of the bag ends up after sorting. */
  lemma PropertyDestination(props: seq<Property>, p: Property) returns (i: nat)
    requires p in props && IsHeaderKey(p.name)
    ensures i < |HeaderProperties(props)|
    ensures SortByIndex(Entries(HeaderProperties(props)))[i] == EntryOf(p)
  {
    var hs := HeaderProperties(props);
    HeaderPropertiesMembers(props);
    var j :| 0 <= j < |hs| && hs[j] == p;
    EntryDestination(hs, j);
    i :| 0 <= i < |hs| && SortByIndex(Entries(hs))[i] == EntryOf(hs[j]);
  }


  // ---------------------------------------------------- what failures name

  /** A name error names a header key of the bag that does not end in a
      number; name errors come before every other error. */
  lemma InvalidNameReported(props: seq<Property>, key: string)
    requires GetFields(props) == Failure(InvalidHeaderPropertyName(key))
    ensures IsHeaderKey(key) && KeyIndex(key).None?
    ensures exists p :: p in props && p.name == key
  {
    HeaderPropertiesMembers(props);
    var hs := HeaderProperties(props);
    var k := FirstInvalidKey(hs).value;
    assert hs[k] in props;
  }

  lemma InvalidNameDetected(props: seq<Property>, p: Property)
    requires p in props && IsHeaderKey(p.name) && KeyIndex(p.name).None?
    ensures GetFields(props).Failure? && GetFields(props).error.InvalidHeaderPropertyName?
  {
    KeysNumberedIff(props);
  }

  /** A sequence error comes only from numbered keys whose numbers are not
      0..N-1, and names a header key of the bag. */
  lemma OutOfSequenceReported(props: seq<Property>, key: string)
    requires GetFields(props) == Failure(OutOfSequence(key))
    ensures KeysNumbered(props) && !Contiguous(Entries(HeaderProperties(props)))
    ensures exists p :: p in props && IsHeaderKey(p.name) && p.name == key
  {
    var hs := HeaderProperties(props);
    var s := SortByIndex(Entries(hs));
    assert FirstInvalidKey(hs).None? && FirstOutOfSequence(s, 0).Some?;
    var k := FirstOutOfSequence(s, 0).value;
    assert key == s[k].key;
    assert KeysNumbered(props) by { KeysNumberedIff(props); }
    assert !Contiguous(Entries(hs)) by { SequenceCheckIff(Entries(hs)); }
    var p := SortedEntryProperty(props, k);
  }

  /** A specification error comes only from a block whose keys are in
      sequence, and names the token of one of its header properties together
      with the reason that token does not parse. */
  lemma InvalidSpecificationReported(props: seq<Property>, token: string, cause: FormatError)
    requires GetFields(props) == Failure(InvalidSpecification(token, cause))
    ensures KeysNumbered(props) && Contiguous(Entries(HeaderProperties(props)))
    ensures ParseToken(token) == Failure(cause) && cause.token == token
    ensures exists p :: p in props && IsHeaderKey(p.name) && TokenOf(p.value) == token
  {
    var hs := HeaderProperties(props);
    var s := SortByIndex(Entries(hs));
    assert FirstInvalidKey(hs).None? && FirstOutOfSequence(s, 0).None?
      && DecodeTokens(s) == Failure(InvalidSpecification(token, cause));
    assert KeysNumbered(props) by { KeysNumberedIff(props); }
    assert Contiguous(Entries(hs)) by { SequenceCheckIff(Entries(hs)); }
    var i := DecodeFailureAt(s, token, cause);
    var p := SortedEntryProperty(props, i);
  }

  /** The entry a failed decode stops at. */
  lemma DecodeFailureAt(es: seq<Entry>, token: string, cause: FormatError) returns (i: nat)
    requires DecodeTokens(es) == Failure(InvalidSpecification(token, cause))
    ensures i < |es| && es[i].token == token && ParseToken(token) == Failure(cause)
  {
    i :| 0 <= i < |es| && ParseToken(es[i].token).Failure?
      && token == es[i].token && cause == ParseToken(es[i].token).error;
  }

  /** The header property a sorted entry was read from. */
  lemma SortedEntryProperty(props: seq<Property>, i: nat) returns (p: Property)
    requires i < |HeaderProperties(props)|
    ensures p in props && IsHeaderKey(p.name)
    ensures EntryOf(p) == SortByIndex(Entries(HeaderProperties(props)))[i]
  {
    var hs := HeaderProperties(props);
    SortedEntryOrigin(hs, i);
    var j :| 0 <= j < |hs| && SortByIndex(Entries(hs))[i] == EntryOf(hs[j]);
    p := hs[j];
    HeaderPropertiesMembers(props);
  }


  // ------------------------------------------------------- order and gaps

  lemma EntriesAppend(a: seq<Property>, b: seq<Property>)
    ensures Entries(a + b) == Entries(a) + Entries(b)
  {
  }

  lemma EntriesRemoveHead(a: seq<Property>)
    requires a != []
    ensures multiset(Entries(a)) == multiset(Entries(a[1..])) + multiset{EntryOf(a[0])}
  {
    assert a == [a[0]] + a[1..];
    EntriesAppend([a[0]], a[1..]);
  }

  lemma EntriesRemoveAt(b: seq<Property>, k: nat)
    requires k < |b|
    ensures multiset(Entries(b)) == multiset(Entries(b[..k] + b[k + 1..])) + multiset{EntryOf(b[k])}
  {
    var x, y := b[..k], b[k + 1..];
    assert b == x + [b[k]] + y;
    assert Entries(b) == Entries(x) + [EntryOf(b[k])] + Entries(y) by {
      EntriesAppend(x, [b[k]]);
      EntriesAppend(x + [b[k]], y);
    }
    assert Entries(x + y) == Entries(x) + Entries(y) by { EntriesAppend(x, y); }
  }

  /** Putting the same property back on both sides keeps the entries permuted. */
  lemma EntriesPermutationStep(a: seq<Property>, b: seq<Property>, k: nat)
    requires a != [] && k < |b| && b[k] == a[0]
    requires multiset(Entries(a[1..])) == multiset(Entries(b[..k] + b[k + 1..]))
    ensures multiset(Entries(a)) == multiset(Entries(b))
  {
    var eb := Entries(b[..k] + b[k + 1..]);
    assert multiset(Entries(a)) == multiset(eb) + multiset{EntryOf(a[0])} by {
      EntriesRemoveHead(a);
    }
    assert multiset(Entries(b)) == multiset(eb) + multiset{EntryOf(a[0])} by {
      EntriesRemoveAt(b, k);
    }
  }

  /** Permuted header properties give permuted entries. */
  lemma {:induction false} EntriesPermutation(a: seq<Property>, b: seq<Property>)
    requires multiset(a) == multiset(b)
    ensures multiset(Entries(a)) == multiset(Entries(b))
    decreases |a|
  {
    if a == [] {
      assert |multiset(b)| == |b|;
    } else {
      HeadInPermutation(a, b);
      var k :| 0 <= k < |b| && b[k] == a[0];
      TailPermutation(a, b, k);
      EntriesPermutation(a[1..], b[..k] + b[k + 1..]);
      EntriesPermutationStep(a, b, k);
    }
  }

  /** Once the keys are numbered 0..N-1, the order in which the header
      properties sit in the bag does not change the outcome of decoding. */
  lemma DecodeOrderIndependent(a: seq<Property>, b: seq<Property>)
    requires multiset(HeaderProperties(a)) == multiset(HeaderProperties(b))
    requires KeysNumbered(a) && Contiguous(Entries(HeaderProperties(a)))
    ensures GetFields(a) == GetFields(b)
  {
    var ha, hb := HeaderProperties(a), HeaderProperties(b);
    assert KeysNumbered(b) by {
      HeaderPropertiesMembers(a);
      HeaderPropertiesMembers(b);
      forall p | p in b && IsHeaderKey(p.name) ensures KeyIndex(p.name).Some? {
        assert p in hb;
        assert p in multiset(hb);
        assert p in ha;
      }
    }
    assert FirstInvalidKey(ha).None? && FirstInvalidKey(hb).None? by {
      KeysNumberedIff(a);
      KeysNumberedIff(b);
    }
    assert SortByIndex(Entries(ha)) == SortByIndex(Entries(hb)) by {
      EntriesPermutation(ha, hb);
      SortDeterminedByEntries(Entries(ha), Entries(hb));
    }
  }

  /** With numbered keys, each entry carries its property's key number. */
  lemma EntryIndexIsKeyIndex(props: seq<Property>, j: nat)
    requires KeysNumbered(props)
    requires j < |HeaderProperties(props)|
    ensures KeyIndex(HeaderProperties(props)[j].name) == Some(Entries(HeaderProperties(props))[j].index)
  {
    HeaderPropertiesMembers(props);
    assert HeaderProperties(props)[j] in props;
  }

  lemma KeyPresentAsIndex(props: seq<Property>, p: Property)
    requires KeysNumbered(props)
    requires p in props && KeyIndex(p.name).Some?
    ensures KeyIndex(p.name).value in Indices(Entries(HeaderProperties(props)))
  {
    HeaderPropertiesMembers(props);
    var hs := HeaderProperties(props);
    assert p in hs;
    var j :| 0 <= j < |hs| && hs[j] == p;
    assert Indices(Entries(hs))[j] == KeyIndex(p.name).value;
  }

  lemma IndexPresentAsKey(props: seq<Property>, k: int)
    requires KeysNumbered(props)
    requires k in Indices(Entries(HeaderProperties(props)))
    ensures exists p :: p in props && KeyIndex(p.name) == Some(k)
  {
    HeaderPropertiesMembers(props);
    var hs := HeaderProperties(props);
    var j :| 0 <= j < |hs| && Indices(Entries(hs))[j] == k;
    EntryIndexIsKeyIndex(props, j);
    assert hs[j] in props;
  }

  lemma DistinctKeysDistinctIndices(props: seq<Property>)
    requires KeysNumbered(props)
    requires var hs := HeaderProperties(props);
      forall i, j :: 0 <= i < j < |hs| ==> KeyIndex(hs[i].name) != KeyIndex(hs[j].name)
    ensures Distinct(Indices(Entries(HeaderProperties(props))))
  {
    var hs := HeaderProperties(props);
    forall i, j | 0 <= i < j < |hs| ensures Indices(Entries(hs))[i] != Indices(Entries(hs))[j] {
      EntryIndexIsKeyIndex(props, i);
      EntryIndexIsKeyIndex(props, j);
    }
  }

  /** The bag-level premises of a gap, restated on the entries. */
  lemma GapEntryPremises(props: seq<Property>, g: nat)
    requires KeysNumbered(props)
    requires var hs := HeaderProperties(props);
      forall i, j :: 0 <= i < j < |hs| ==> KeyIndex(hs[i].name) != KeyIndex(hs[j].name)
    requires forall k :: 0 <= k < g ==> exists p :: p in props && KeyIndex(p.name) == Some(k)
    requires forall p :: p in props ==> KeyIndex(p.name) != Some(g)
    requires exists p :: p in props && KeyIndex(p.name).Some? && KeyIndex(p.name).value > g
    ensures var es := Entries(HeaderProperties(props));
      && Distinct(Indices(es))
      && (forall k :: 0 <= k < g ==> k in Indices(es))
      && g !in Indices(es)
      && exists j :: 0 <= j < |es| && es[j].index > g
  {
    var es := Entries(HeaderProperties(props));
    DistinctKeysDistinctIndices(props);
    forall k | 0 <= k < g ensures k in Indices(es) {
      var p :| p in props && KeyIndex(p.name) == Some(k);
      KeyPresentAsIndex(props, p);
    }
    assert g !in Indices(es) by {
      if g in Indices(es) {
        IndexPresentAsKey(props, g);
      }
    }
    var p0 :| p0 in props && KeyIndex(p0.name).Some? && KeyIndex(p0.name).value > g;
    KeyPresentAsIndex(props, p0);
  }

  /** A sequence check that stops at an entry reports that entry's key. */
  lemma SequenceErrorAt(props: seq<Property>, g: nat, j: nat)
    requires KeysNumbered(props)
    requires j < |HeaderProperties(props)| && g < |HeaderProperties(props)|
    requires var s := SortByIndex(Entries(HeaderProperties(props)));
      FirstOutOfSequence(s, 0) == Some(g) && s[g] == EntryOf(HeaderProperties(props)[j])
    ensures GetFields(props) == Failure(OutOfSequence(HeaderProperties(props)[j].name))
  {
    KeysNumberedIff(props);
  }

  /** The property behind the entry a gap check stops at: it fails the
      decode, and its key is the smallest one above the gap. */
  lemma GapWitness(props: seq<Property>, g: nat) returns (p: Property)
    requires KeysNumbered(props)
    requires var es := Entries(HeaderProperties(props)); var s := SortByIndex(es);
      && g < |s| && FirstOutOfSequence(s, 0) == Some(g) && s[g] in es && s[g].index > g
      && forall j :: 0 <= j < |es| && es[j].index > g ==> s[g].index <= es[j].index
    ensures p in props && KeyIndex(p.name).Some? && KeyIndex(p.name).value > g
    ensures forall q :: q in props && KeyIndex(q.name).Some? && KeyIndex(q.name).value > g ==>
      KeyIndex(p.name).value <= KeyIndex(q.name).value
    ensures GetFields(props) == Failure(OutOfSequence(p.name))
  {
    var hs := HeaderProperties(props);
    var es := Entries(hs);
    var s := SortByIndex(es);
    var j :| 0 <= j < |es| && es[j] == s[g];
    p := hs[j];
    assert p in props && KeyIndex(p.name) == Some(s[g].index) by {
      HeaderPropertiesMembers(props);
      EntryIndexIsKeyIndex(props, j);
    }
    SequenceErrorAt(props, g, j);
    forall q | q in props && KeyIndex(q.name).Some? && KeyIndex(q.name).value > g
      ensures KeyIndex(p.name).value <= KeyIndex(q.name).value
    {
      assert q in hs by { HeaderPropertiesMembers(props); }
      var jq :| 0 <= jq < |hs| && hs[jq] == q;
      EntryIndexIsKeyIndex(props, jq);
    }
  }

  /** When keys 0..g-1 are present, key g is missing and a larger key exists,
      decoding fails on the header property with the smallest key above g. */
  lemma GapNamesNextKey(props: seq<Property>, g: nat)
    requires KeysNumbered(props)
    requires var hs := HeaderProperties(props);
      forall i, j :: 0 <= i < j < |hs| ==> KeyIndex(hs[i].name) != KeyIndex(hs[j].name)
    requires forall k :: 0 <= k < g ==> exists p :: p in props && KeyIndex(p.name) == Some(k)
    requires forall p :: p in props ==> KeyIndex(p.name) != Some(g)
    requires exists p :: p in props && KeyIndex(p.name).Some? && KeyIndex(p.name).value > g
    ensures exists p :: (p in props && KeyIndex(p.name).Some? && KeyIndex(p.name).value > g
      && (forall q :: q in props && KeyIndex(q.name).Some? && KeyIndex(q.name).value > g ==>
            KeyIndex(p.name).value <= KeyIndex(q.name).value)
      && GetFields(props) == Failure(OutOfSequence(p.name)))
  {
    var es := Entries(HeaderProperties(props));
    var s := SortByIndex(es);
    assert g < |s| && FirstOutOfSequence(s, 0) == Some(g) && s[g] in es && s[g].index > g
      && forall j :: 0 <= j < |es| && es[j].index > g ==> s[g].index <= es[j].index
    by {
      GapEntryPremises(props, g);
      FirstGapFound(es, g);
    }
    var p := GapWitness(props, g);
  }


}
