/** Field descriptors: what one CSV column is called, what type its values
    have and, optionally, how they are formatted; and the `name(tag)` token
    a descriptor is stored as inside a header block. */
module Fields {
  import opened Wrappers
  import opened Events

  /** The Java value types a column can declare. */
  datatype FieldType = StringType | IntType | LongType | FloatType | DoubleType

  /** A column descriptor. The timestamp column has a fixed name and type and
      is the only descriptor that is a timestamp. */
  datatype CSVField =
    | TimestampField(format: Option<string>)
    | PlainField(name: string, ftype: FieldType, format: Option<string>)
  {
    /** The timestamp column is called by the timestamp property name, and a
        descriptor the constructor accepts always has a name. */
    function Name(): (n: string)
      ensures IsTimestamp() ==> n == TIMESTAMP_PROPERTY_NAME
      ensures ValidField(this) ==> n != []
    {
      if TimestampField? then TIMESTAMP_PROPERTY_NAME else name
    }

    /** The timestamp column holds milliseconds, a long. */
    function Type(): (t: FieldType)
      ensures IsTimestamp() ==> t == LongType
    {
      if TimestampField? then LongType else ftype
    }

    function Format(): Option<string> { format }

    predicate IsTimestamp() { TimestampField? }
  }

  /** Name, type, format and the timestamp flag together fix a descriptor. */
  lemma AccessorsDetermineField(f: CSVField, g: CSVField)
    requires f.Name() == g.Name() && f.Type() == g.Type() && f.Format() == g.Format()
    requires f.IsTimestamp() == g.IsTimestamp()
    ensures f == g
  {
  }

  /** A descriptor the constructor accepts: a plain column needs a non-empty name. */
  predicate ValidField(f: CSVField)
  {
    f.PlainField? ==> f.name != []
  }

  /** The descriptor as it reads back from its token: the token carries no format. */
  function Normalize(f: CSVField): (g: CSVField)
    ensures g.Name() == f.Name() && g.Type() == f.Type() && g.IsTimestamp() == f.IsTimestamp()
    ensures g.Format() == None
  {
    match f
    case TimestampField(_) => TimestampField(None)
    case PlainField(n, t, _) => PlainField(n, t, None)
  }

  // ------------------------------------------------------------------- tags

  const TIME_TAG: string := "time"

  /** The tag a type is written with: a non-empty word free of parentheses
      and distinct from the timestamp tag. */
  function TypeTag(t: FieldType): (tag: string)
    ensures tag != [] && '(' !in tag && ')' !in tag && tag != TIME_TAG
  {
    match t
    case StringType => "string"
    case IntType => "int"
    case LongType => "long"
    case FloatType => "float"
    case DoubleType => "double"
  }

  /** Resolves a tag against the type table; the table is the inverse of TypeTag. */
  function TagType(tag: string): (r: Option<FieldType>)
    ensures r.Some? ==> TypeTag(r.value) == tag
    ensures forall t :: tag == TypeTag(t) ==> r == Some(t)
  {
    if tag == "string" then Some(StringType)
    else if tag == "int" then Some(IntType)
    else if tag == "long" then Some(LongType)
    else if tag == "float" then Some(FloatType)
    else if tag == "double" then Some(DoubleType)
    else None
  }

  /** The tag a descriptor is written with: `time` exactly for the timestamp
      column, otherwise the tag that resolves back to its type. */
  function FieldTag(f: CSVField): (tag: string)
    ensures tag == TIME_TAG <==> f.IsTimestamp()
    ensures !f.IsTimestamp() ==> TagType(tag) == Some(f.Type())
    ensures '(' !in tag && ')' !in tag
  {
    if f.TimestampField? then TIME_TAG else TypeTag(f.ftype)
  }

  // --------------------------------------------------------------- encoding

  /** The header token of a descriptor: `name(tag)`. */
  function EncodeToken(f: CSVField): string
  {
    f.Name() + "(" + FieldTag(f) + ")"
  }

  // --------------------------------------------------------------- decoding

  /** Why a token is not a valid column specification. */
  datatype FormatReason = EmptyName | UnknownType(tag: string) | Malformed

  /** The format error a rejected token raises, naming the token. */
  datatype FormatError = FormatError(token: string, reason: FormatReason)

  /** A token carries a type when it ends in `)` with a `(` somewhere before. */
  predicate IsTagged(t: string)
  {
    |t| >= 2 && t[|t| - 1] == ')' && '(' in t[..|t| - 1]
  }

  /** A token without any parenthesis is a bare column name. */
  predicate IsBare(t: string)
  {
    '(' !in t && ')' !in t
  }

  function LastIndexOf(s: string, c: char): (i: nat)
    requires c in s
    ensures i < |s| && s[i] == c
    ensures forall j :: i < j < |s| ==> s[j] != c
  {
    if s[|s| - 1] == c then |s| - 1 else LastIndexOf(s[..|s| - 1], c)
  }

  /** Where the tag of a tagged token opens: its last `(`. */
  function TagStart(t: string): (i: nat)
    requires IsTagged(t)
    ensures i < |t| - 1 && t[i] == '('
    ensures forall j :: i < j < |t| - 1 ==> t[j] != '('
  {
    LastIndexOf(t[..|t| - 1], '(')
  }

  /** Reads a header token back into a descriptor. A tagged token `head(tag)`
      needs a non-empty head and a known tag, `time` giving the timestamp
      column; a token without parentheses is a bare column name, the
      timestamp name giving the timestamp column; any other placement of
      parentheses is malformed. */
  function ParseToken(t: string): (r: Result<CSVField, FormatError>)
    ensures r.Success? ==> r.value.Format() == None
    ensures r.Failure? ==> r.error.token == t
    ensures t != [] && IsBare(t) ==> r.Success? && r.value.Name() == t
    ensures t != [] && IsBare(t) ==> (r.value.IsTimestamp() <==> t == TIMESTAMP_PROPERTY_NAME)
    ensures !IsTagged(t) && !IsBare(t) <==> r == Failure(FormatError(t, Malformed))
  {
    if IsTagged(t) then
      var i := TagStart(t);
      var head, tag := t[..i], t[i + 1..|t| - 1];
      if head == [] then Failure(FormatError(t, EmptyName))
      else if tag == TIME_TAG then Success(TimestampField(None))
      else match TagType(tag)
        case Some(ty) => Success(PlainField(head, ty, None))
        case None => Failure(FormatError(t, UnknownType(tag)))
    else if !IsBare(t) then Failure(FormatError(t, Malformed))
    else if t == [] then Failure(FormatError(t, EmptyName))
    else if t == TIMESTAMP_PROPERTY_NAME then Success(TimestampField(None))
    else Success(PlainField(t, StringType, None))
  }

  // ------------------------------------------------------------------ laws

  /** A token is rejected for an empty name exactly when it is empty, or is
      tagged with nothing before the `(`. */
  lemma EmptyNameRejected(t: string)
    ensures t == [] || (IsTagged(t) && TagStart(t) == 0) <==> ParseToken(t) == Failure(FormatError(t, EmptyName))
  {
  }

  /** `head(tag)` with a tag free of `(` splits back into head and tag. */
  lemma TaggedParts(head: string, tag: string)
    requires '(' !in tag
    ensures var t := head + "(" + tag + ")";
      IsTagged(t) && TagStart(t) == |head| && t[..|head|] == head && t[|head| + 1..|t| - 1] == tag
  {
    var t := head + "(" + tag + ")";
    assert t[|head|] == '(';
    assert t[..|t| - 1] == head + "(" + tag;
    assert '(' in t[..|t| - 1];
    assert forall j :: |head| < j < |t| - 1 ==> t[j] == tag[j - |head| - 1];
    assert TagStart(t) == |head|;
    assert t[|head| + 1..|t| - 1] == tag;
  }

  /** A descriptor's token is tagged; its tag opens right after the name, so
      the head is the descriptor's name and the tag is the descriptor's tag. */
  lemma EncodeTokenShape(f: CSVField)
    ensures var t := EncodeToken(f);
      IsTagged(t) && TagStart(t) == |f.Name()| && t[..TagStart(t)] == f.Name()
      && t[TagStart(t) + 1..|t| - 1] == FieldTag(f)
  {
    TaggedParts(f.Name(), FieldTag(f));
  }

  /** Every valid descriptor reads back from its token, less its format. */
  lemma TokenRoundTrip(f: CSVField)
    requires ValidField(f)
    ensures ParseToken(EncodeToken(f)) == Success(Normalize(f))
  {
    EncodeTokenShape(f);
  }

  /** A tagged token that parses is exactly the token of what it parses to,
      unless it names the timestamp column under another head. */
  lemma TaggedTokenReencodes(t: string)
    requires IsTagged(t) && ParseToken(t).Success?
    requires ParseToken(t).value.IsTimestamp() ==> t[..TagStart(t)] == TIMESTAMP_PROPERTY_NAME
    ensures EncodeToken(ParseToken(t).value) == t
  {
    var i := TagStart(t);
    var head, tag := t[..i], t[i + 1..|t| - 1];
    assert t == head + "(" + tag + ")";
    var f := ParseToken(t).value;
    if f.IsTimestamp() {
      assert tag == TIME_TAG;
    } else {
      assert f == PlainField(head, TagType(tag).value, None);
    }
  }

  /** A token whose tag is not in the table is rejected, naming the token and the tag. */
  lemma UnknownTagRejected(head: string, tag: string)
    requires head != [] && '(' !in tag && tag != TIME_TAG && TagType(tag).None?
    ensures ParseToken(head + "(" + tag + ")") == Failure(FormatError(head + "(" + tag + ")", UnknownType(tag)))
  {
    TaggedParts(head, tag);
  }
}
