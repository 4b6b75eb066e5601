# CSV header codec

A Dafny model of the header block of the `events-csv` library: `CSVHeaders`
and the column descriptors it reads and writes, `CSVFieldImpl` and
`TimestampCSVField`. A header block lives inside a generic event, a property
bag of named string and long values.

- **Encode.** The constructor from a field list writes a block. The block is
  the line number under `LINE_NUMBER_PROPERTY_NAME`, then one string property
  per column. Column `i` goes under the key `HEADER_NAME_PREFIX + i`, and its
  value is the column's token `name(tag)`.
- **Decode.** `getFields` reads the block back.
  1. It keeps only the properties whose name starts with the prefix.
  2. It parses each key's suffix as an index.
  3. It checks that the indices are exactly `0..N-1`.
  4. It parses each token in index order.
  Each of three malformations has its own error: a key whose suffix is not a
  number, a break in the sequence of indices, and a token that does not
  parse.
- **Load.** `load` reads a raw header line. It splits the line on commas and
  trims each column. A blank column fails with a parsing error that carries
  the line number, no position in the line, and the missing column. Any other
  column's name is stored under its sequential key. A name equal to
  `timestamp`, ignoring case, is stored as the timestamp property name.

The implementation of these classes is not part of this model. Their
behaviour is taken from `CSVHeadersTest.java`, and each cited line range is
the test that pins down what the member states.

Files:

- `wrappers.dfy` (`Wrappers`): `Option`, `Result` and `Outcome`.
- `text.dfy` (`Text`): the string work.
  - Java's `trim`: characters at or below U+0020 are blanks.
  - Splitting on a separator.
  - ASCII case folding.
  - Decimal indices.
- `events.dfy` (`Events`): the property bag. It is an insertion-ordered
  sequence of `(name, value)` pairs. Setting a name that is present replaces
  its value in place; setting a new name appends it.
- `fields.dfy` (`Fields`): the descriptors.
  - The timestamp column is a variant of its own, with a fixed name, type
    `long` and tag `time`.
  - The token grammar: encoding and decoding a token.
  - The round trip of one token.
- `header_order.dfy` (`HeaderOrder`): the index check.
  - A stable insertion sort by index.
  - The scan for the first sorted position that does not hold its own index.
  - The proof that this scan passes exactly when the indices are `0..N-1`.
- `headers.dfy` (`Headers`): the codec itself.
  - The key namespace.
  - The decode pipeline `GetFields`.
  - The block written by the constructor.
  - The column names a raw line yields.
  - The class `CSVHeaders`, which owns its bag as a `seq` field. Its
    constructors, the two setters and the `Load` loop are methods that update
    that field.
- `header_laws.dfy` (`HeaderLaws`): the laws of `GetFields`.
  - The round trip.
  - When decoding succeeds, both directions.
  - What each error names.
  - Independence from foreign properties and from bag order.
- `load_laws.dfy` (`LoadLaws`): what a loaded line stores and how it decodes.
- `header_scenarios.dfy` (`HeaderScenarios`): the concrete cases of the test
  class, stated as lemmas.

## Model

| member | source | states |
|---|---|---|
| Text.Trim | main/src/test/java/io/novaordis/events/csv/event/CSVHeadersTest.java:278-294 | the trimmed column is the column with a blank prefix and a blank suffix cut off (blanks being characters at or below U+0020); it is empty exactly when every character is blank, and otherwise starts and ends with a non-blank |
| Text.Split | main/src/test/java/io/novaordis/events/csv/event/CSVHeadersTest.java:278 | a line splits into at least one piece, no piece holds a comma, and joining the pieces with commas gives back the line (empty pieces are kept) |
| Text.SplitThree | main/src/test/java/io/novaordis/events/csv/event/CSVHeadersTest.java:278 | three comma-free pieces joined by commas split back into exactly those three pieces |
| Text.TrimSurroundingBlanks | main/src/test/java/io/novaordis/events/csv/event/CSVHeadersTest.java:288-294 | blanks before and after a name whose ends are non-blank trim away to exactly that name |
| Text.EqualsIgnoreCaseIff | main/src/test/java/io/novaordis/events/csv/event/CSVHeadersTest.java:278-286 | two names are equal ignoring case exactly when their ASCII lower-case forms are equal, so the comparison is symmetric and every name matches itself |
| Text.NatToString | main/src/test/java/io/novaordis/events/csv/event/CSVHeadersTest.java:80-96 | the number written into a key is a run of digits without leading zeros (a single digit, or a first digit other than `0`) whose value is the number |
| Text.CanonicalNumeralRoundTrip | main/src/test/java/io/novaordis/events/csv/event/CSVHeadersTest.java:80-96 | a numeral without leading zeros, read as a number and written back, gives the same text, so writing numbers hits every such numeral |
| Events.FindName | main/src/test/java/io/novaordis/events/csv/event/CSVHeadersTest.java:153-164 | the lookup returns the first position holding the name, or reports that no position holds it |
| Events.SetProperty | main/src/test/java/io/novaordis/events/csv/event/CSVHeadersTest.java:153-164 | setting a name keeps every existing name at its position; a present name keeps the length, and a new name is appended at the end |
| Events.GetAfterSet | main/src/test/java/io/novaordis/events/csv/event/CSVHeadersTest.java:153-164 | after setting a name, reading it gives the new value and reading any other name gives what it gave before |
| Events.DistinctNamesAllVisible | main/src/test/java/io/novaordis/events/csv/event/CSVHeadersTest.java:153-164 | in a bag without duplicate names, every property is what its name reads back, so none is hidden behind another of the same name |
| Events.SetPropertyKeepsNamesDistinct | main/src/test/java/io/novaordis/events/csv/event/CSVHeadersTest.java:153-164 | setting a property keeps the bag's names unique |
| Fields.Normalize | main/src/test/java/io/novaordis/events/csv/event/CSVHeadersTest.java:117-145 | the descriptor as read back keeps the name, the type and the timestamp flag, and has no format |
| Fields.CSVField.Name | main/src/test/java/io/novaordis/events/csv/event/CSVHeadersTest.java:117-145 | the timestamp column is named by the timestamp property name, and a descriptor with a valid name never has an empty one |
| Fields.CSVField.Type | main/src/test/java/io/novaordis/events/csv/event/CSVHeadersTest.java:117-120 | the timestamp column has the long type |
| Fields.AccessorsDetermineField | main/src/test/java/io/novaordis/events/csv/event/CSVHeadersTest.java:117-145 | two descriptors that agree on name, type, format and timestamp flag are the same descriptor, so these four accessors are all a descriptor shows |
| Fields.TypeTag | main/src/test/java/io/novaordis/events/csv/event/CSVHeadersTest.java:81-97 | each type is written with a non-empty tag that holds no parenthesis and is not the timestamp tag |
| Fields.FieldTag | main/src/test/java/io/novaordis/events/csv/event/CSVHeadersTest.java:78-97 | a descriptor is tagged `time` exactly when it is the timestamp column, and otherwise with the tag that resolves back to its type; the tag holds no parenthesis |
| Fields.TagType | main/src/test/java/io/novaordis/events/csv/event/CSVHeadersTest.java:85-97 | the tag table resolves exactly the tags that types are written with, each to its own type |
| Fields.ParseToken | main/src/test/java/io/novaordis/events/csv/event/CSVHeadersTest.java:154-175 | a non-empty token without parentheses decodes to a field named by the whole token, which is the timestamp field exactly when the token is the timestamp name; a token that has parentheses but is not of the form `head(tag)` is rejected as malformed, and only such a token is; a decoded field has no format; a rejected token is named in its error |
| Fields.EmptyNameRejected | main/src/test/java/io/novaordis/events/csv/event/CSVHeadersTest.java:248-269 | a token is rejected for an empty name exactly when it is empty, or is tagged with nothing before the `(`; this is the format-error path that lines 248-269 exercise for an unknown type, and no test gives an empty name |
| Fields.TaggedParts | main/src/test/java/io/novaordis/events/csv/event/CSVHeadersTest.java:159-163 | a token `head(tag)` whose tag holds no `(` is tagged, and it splits at that `(` into head and tag |
| Fields.EncodeTokenShape | main/src/test/java/io/novaordis/events/csv/event/CSVHeadersTest.java:78-97 | the token written for a descriptor is tagged, its tag opens right after the name, and it splits back into the name and the descriptor's tag |
| Fields.TokenRoundTrip | main/src/test/java/io/novaordis/events/csv/event/CSVHeadersTest.java:102-146 | the token written for a descriptor with a non-empty name decodes to that descriptor without its format |
| Fields.TaggedTokenReencodes | main/src/test/java/io/novaordis/events/csv/event/CSVHeadersTest.java:159-163 | a tagged token that decodes is written back as the same text, provided that a token tagged `time` has the timestamp name as its head |
| Fields.UnknownTagRejected | main/src/test/java/io/novaordis/events/csv/event/CSVHeadersTest.java:248-269 | a token whose tag is not in the table fails with a format error naming the token and the unknown tag |
| HeaderOrder.Range | main/src/test/java/io/novaordis/events/csv/event/CSVHeadersTest.java:187-226 | the expected index sequence `0..N-1` |
| HeaderOrder.SortByIndex | main/src/test/java/io/novaordis/events/csv/event/CSVHeadersTest.java:148-185 | sorting keeps the length and is a permutation of the entries |
| HeaderOrder.SortByIndexSorted | main/src/test/java/io/novaordis/events/csv/event/CSVHeadersTest.java:148-185 | the sorted entries are in ascending index order |
| HeaderOrder.SortByIndexIndices | main/src/test/java/io/novaordis/events/csv/event/CSVHeadersTest.java:148-185 | sorting permutes the indices and does not change them |
| HeaderOrder.FirstOutOfSequence | main/src/test/java/io/novaordis/events/csv/event/CSVHeadersTest.java:187-226 | the scan finds no position exactly when every position holds its own index; otherwise it finds the first position that does not |
| HeaderOrder.SortedUnique | main/src/test/java/io/novaordis/events/csv/event/CSVHeadersTest.java:148-185 | two ascending index sequences with the same indices are equal |
| HeaderOrder.SequenceCheckIff | main/src/test/java/io/novaordis/events/csv/event/CSVHeadersTest.java:187-226 | the sequence check on the sorted entries passes if and only if the indices are exactly `0..N-1` |
| HeaderOrder.FirstGapFound | main/src/test/java/io/novaordis/events/csv/event/CSVHeadersTest.java:206-226 | when `0..g-1` are present, `g` is missing and some index exceeds `g`, the check stops at sorted position `g`, which holds the smallest index above `g` |
| HeaderOrder.IndicesPermutation | main/src/test/java/io/novaordis/events/csv/event/CSVHeadersTest.java:148-185 | entries that are a permutation of each other carry the same indices |
| HeaderOrder.SortDeterminedByEntries | main/src/test/java/io/novaordis/events/csv/event/CSVHeadersTest.java:148-185 | when the indices are `0..N-1`, every ordering of the same entries sorts to the same sequence |
| Headers.HeaderKey | main/src/test/java/io/novaordis/events/csv/event/CSVHeadersTest.java:80-96 | the key for index `i` is in the header namespace, its suffix has no leading zeros, and it reads back as `i` |
| Headers.KeyIndexIff | main/src/test/java/io/novaordis/events/csv/event/CSVHeadersTest.java:80-96 | a name is the key of column `i` exactly when it is in the header namespace, its suffix has no leading zeros, and it reads back as `i`; so keys and indexes correspond one to one |
| Headers.LineNumberIsNotHeaderKey | main/src/test/java/io/novaordis/events/csv/event/CSVHeadersTest.java:75-77 | the line-number property is outside the header namespace |
| Headers.HeaderProperties | main/src/test/java/io/novaordis/events/csv/event/CSVHeadersTest.java:148-185 | the extracted properties all carry header keys and are no more than the bag holds |
| Headers.HeaderPropertiesMembers | main/src/test/java/io/novaordis/events/csv/event/CSVHeadersTest.java:148-185 | a property is extracted if and only if it is in the bag under a header key |
| Headers.FirstInvalidKey | main/src/test/java/io/novaordis/events/csv/event/CSVHeadersTest.java:228-246 | finds the first header key whose suffix is not a number, and finds none exactly when every suffix is a number |
| Headers.DecodeTokens | main/src/test/java/io/novaordis/events/csv/event/CSVHeadersTest.java:248-269 | decoding succeeds exactly when every token parses, giving each token's field in order; otherwise it fails on the first token that does not parse, naming it and carrying its format error as cause |
| Headers.GetFields | main/src/test/java/io/novaordis/events/csv/event/CSVHeadersTest.java:113-146 | a successful decode gives one field per header property, none with a format |
| Headers.EncodedProperties | main/src/test/java/io/novaordis/events/csv/event/CSVHeadersTest.java:70-97 | the written block holds one property more than there are fields, and no two of its properties share a name |
| Headers.ColumnName | main/src/test/java/io/novaordis/events/csv/event/CSVHeadersTest.java:278-294 | a column equal to `timestamp` (ignoring case) once trimmed is stored as the timestamp name, and any other column as its trimmed text; the name is empty exactly when the column is blank |
| Headers.ColumnNamesShape | main/src/test/java/io/novaordis/events/csv/event/CSVHeadersTest.java:278-295 | a header line yields one name per column, and a name is empty exactly when its column is blank |
| Headers.FirstMissingHeader | main/src/test/java/io/novaordis/events/csv/event/CSVHeadersTest.java:297-333 | finds the first blank column, with every earlier column non-blank; finds none exactly when no column is blank |
| Headers.StoredNamesReadBack | main/src/test/java/io/novaordis/events/csv/event/CSVHeadersTest.java:280-295 | after the names are stored, each reads back under the key of its column |
| Headers.StoreNamesKeepsForeign | main/src/test/java/io/novaordis/events/csv/event/CSVHeadersTest.java:273-295 | storing names leaves every property outside the header namespace reading as before |
| Headers.StoreNamesKeepsNamesDistinct | main/src/test/java/io/novaordis/events/csv/event/CSVHeadersTest.java:273-295 | storing loaded names keeps the bag's names unique |
| Headers.FirstMissingHeaderOfPrefix | main/src/test/java/io/novaordis/events/csv/event/CSVHeadersTest.java:297-333 | a blank column preceded only by non-blank ones is the first missing header |
| Headers.CSVHeaders.constructor | main/src/test/java/io/novaordis/events/csv/event/CSVHeadersTest.java:366-369 | a new codec has an empty bag |
| Headers.CSVHeaders.FromFields | main/src/test/java/io/novaordis/events/csv/event/CSVHeadersTest.java:61-98 | the constructor from fields leaves the bag as the written block: the line number, then field `i`'s token under key `i`, in order |
| Headers.CSVHeaders.SetStringProperty | main/src/test/java/io/novaordis/events/csv/event/CSVHeadersTest.java:153-164 | the bag becomes the old bag with the name set to the string, and its names stay unique |
| Headers.CSVHeaders.SetLongProperty | main/src/test/java/io/novaordis/events/csv/event/CSVHeadersTest.java:153-164 | the bag becomes the old bag with the name set to the long, and its names stay unique |
| Headers.CSVHeaders.Load | main/src/test/java/io/novaordis/events/csv/event/CSVHeadersTest.java:273-333 | with no blank column the load passes and every column's name is stored under its index; otherwise it fails with the line number, no position and the first blank column, and the columns before it have been stored |
| HeaderLaws.HeaderPropertiesConcat | main/src/test/java/io/novaordis/events/csv/event/CSVHeadersTest.java:148-185 | extraction from two concatenated bags is the concatenation of the extractions |
| HeaderLaws.HeaderPropertiesOfHeaders | main/src/test/java/io/novaordis/events/csv/event/CSVHeadersTest.java:148-185 | a bag of header properties only is extracted whole |
| HeaderLaws.SameHeadersSameFields | main/src/test/java/io/novaordis/events/csv/event/CSVHeadersTest.java:148-185 | bags with the same header properties decode alike |
| HeaderLaws.OnlyHeaderPropertiesMatter | main/src/test/java/io/novaordis/events/csv/event/CSVHeadersTest.java:148-185 | a bag decodes as its header properties alone |
| HeaderLaws.ForeignPropertyIgnored | main/src/test/java/io/novaordis/events/csv/event/CSVHeadersTest.java:148-185 | inserting a property outside the header namespace anywhere in the bag does not change the decode |
| HeaderLaws.SortInOrder | main/src/test/java/io/novaordis/events/csv/event/CSVHeadersTest.java:148-185 | entries already in ascending index order are left as they are by the sort |
| HeaderLaws.DecodeKeyedInOrder | main/src/test/java/io/novaordis/events/csv/event/CSVHeadersTest.java:102-146 | header properties stored under keys `0..N-1` in order decode as their tokens in that order |
| HeaderLaws.DecodeTokensAll | main/src/test/java/io/novaordis/events/csv/event/CSVHeadersTest.java:102-146 | tokens that each parse to a given field decode to exactly those fields |
| HeaderLaws.DecodeInOrder | main/src/test/java/io/novaordis/events/csv/event/CSVHeadersTest.java:102-146 | a column block written from tokens decodes as those tokens in order |
| HeaderLaws.EncodedLayout | main/src/test/java/io/novaordis/events/csv/event/CSVHeadersTest.java:70-97 | a written block has `1 + N` properties: the line number as a long, then field `i`'s token under key `i` |
| HeaderLaws.EncodeDecodeRoundTrip | main/src/test/java/io/novaordis/events/csv/event/CSVHeadersTest.java:102-146 | decoding a written block gives the written fields in order, with the same names, types and timestamp flags and no formats |
| HeaderLaws.SortedEntryOrigin | main/src/test/java/io/novaordis/events/csv/event/CSVHeadersTest.java:148-185 | every sorted entry comes from some header property |
| HeaderLaws.EntryDestination | main/src/test/java/io/novaordis/events/csv/event/CSVHeadersTest.java:148-185 | every header property ends up at some sorted position |
| HeaderLaws.KeysNumberedIff | main/src/test/java/io/novaordis/events/csv/event/CSVHeadersTest.java:228-246 | the key check passes if and only if every header key in the bag ends in a number |
| HeaderLaws.BagTokensFromSorted | main/src/test/java/io/novaordis/events/csv/event/CSVHeadersTest.java:248-269 | if every sorted token parses, every header token in the bag parses |
| HeaderLaws.SortedTokensFromBag | main/src/test/java/io/novaordis/events/csv/event/CSVHeadersTest.java:248-269 | if every header token in the bag parses, every sorted token parses |
| HeaderLaws.SortedTokensParseIff | main/src/test/java/io/novaordis/events/csv/event/CSVHeadersTest.java:248-269 | the tokens parse in sorted order if and only if they parse in the bag |
| HeaderLaws.DecodeSucceedsIff | main/src/test/java/io/novaordis/events/csv/event/CSVHeadersTest.java:187-269 | decoding succeeds if and only if every header key ends in a number, the indices are exactly `0..N-1`, and every header token parses |
| HeaderLaws.DecodedFieldsByIndex | main/src/test/java/io/novaordis/events/csv/event/CSVHeadersTest.java:148-185 | after a successful decode the property under key `k` parses to field `k`, and every field has a property under its key |
| HeaderLaws.InvalidNameReported | main/src/test/java/io/novaordis/events/csv/event/CSVHeadersTest.java:228-246 | an invalid-name error names a key of the bag that is in the header namespace and whose suffix is not a number |
| HeaderLaws.InvalidNameDetected | main/src/test/java/io/novaordis/events/csv/event/CSVHeadersTest.java:228-246 | a header key with a non-numeric suffix anywhere in the bag makes decoding fail with an invalid-name error |
| HeaderLaws.OutOfSequenceReported | main/src/test/java/io/novaordis/events/csv/event/CSVHeadersTest.java:187-226 | an out-of-sequence error arises only when every key ends in a number and the indices are not `0..N-1`, and it names a header key of the bag |
| HeaderLaws.InvalidSpecificationReported | main/src/test/java/io/novaordis/events/csv/event/CSVHeadersTest.java:248-269 | an invalid-specification error arises only when the keys and the sequence are sound; it names a header token of the bag, and its cause is that token's own format error |
| HeaderLaws.EntriesAppend | main/src/test/java/io/novaordis/events/csv/event/CSVHeadersTest.java:148-185 | the entries of two concatenated lists are the concatenated entries |
| HeaderLaws.EntriesPermutation | main/src/test/java/io/novaordis/events/csv/event/CSVHeadersTest.java:148-185 | permuted properties give permuted entries |
| HeaderLaws.DecodeOrderIndependent | main/src/test/java/io/novaordis/events/csv/event/CSVHeadersTest.java:148-185 | two bags holding the same header properties in any order decode alike when their keys are numbered `0..N-1` |
| HeaderLaws.EntryIndexIsKeyIndex | main/src/test/java/io/novaordis/events/csv/event/CSVHeadersTest.java:187-226 | an entry's index is its key's suffix |
| HeaderLaws.KeyPresentAsIndex | main/src/test/java/io/novaordis/events/csv/event/CSVHeadersTest.java:187-226 | every numbered key in the bag contributes its index |
| HeaderLaws.IndexPresentAsKey | main/src/test/java/io/novaordis/events/csv/event/CSVHeadersTest.java:187-226 | every index present comes from a key in the bag |
| HeaderLaws.DistinctKeysDistinctIndices | main/src/test/java/io/novaordis/events/csv/event/CSVHeadersTest.java:187-226 | header keys with distinct suffix values give distinct indices |
| HeaderLaws.GapEntryPremises | main/src/test/java/io/novaordis/events/csv/event/CSVHeadersTest.java:206-226 | a gap at `g` among the keys is a gap at `g` among the entries' indices |
| HeaderLaws.SequenceErrorAt | main/src/test/java/io/novaordis/events/csv/event/CSVHeadersTest.java:206-226 | when the check stops at a sorted position, decoding fails naming the key of the property found there |
| HeaderLaws.GapNamesNextKey | main/src/test/java/io/novaordis/events/csv/event/CSVHeadersTest.java:187-226 | with keys `0..g-1` present, `g` missing and a larger key present, decoding fails out of sequence naming the property with the smallest key above `g` |
| LoadLaws.LoadIntoEmptyBag | main/src/test/java/io/novaordis/events/csv/event/CSVHeadersTest.java:280-295 | names loaded into an empty bag are exactly one property per name under keys `0..N-1`, in order, with no line-number property |
| LoadLaws.LoadedNamesDecode | main/src/test/java/io/novaordis/events/csv/event/CSVHeadersTest.java:273-295 | non-empty names without parentheses, once loaded, decode to one field per name carrying that name, the timestamp field exactly for the timestamp name |
| LoadLaws.ColumnNameIsTimestampIff | main/src/test/java/io/novaordis/events/csv/event/CSVHeadersTest.java:278-286 | a column is stored as the timestamp name if and only if its trimmed text equals that name ignoring case |
| LoadLaws.LoadedColumnsDecode | main/src/test/java/io/novaordis/events/csv/event/CSVHeadersTest.java:335-359 | a line without blank columns and without parentheses, once loaded, decodes to one field per column named after it; a field is the timestamp exactly when its column says `timestamp` in any case, so a line without one gives none |
| HeaderScenarios.ConstructorScenario | main/src/test/java/io/novaordis/events/csv/event/CSVHeadersTest.java:61-98 | the five sample fields written at line 7 give the line number, then `timestamp(time)`, `some string(string)`, `some int(int)`, `some long(long)`, `some float(float)` under the keys `HEADER_NAME_PREFIX + "0"` to `HEADER_NAME_PREFIX + "4"`, spelled as the test spells them |
| HeaderScenarios.GetFieldsScenario | main/src/test/java/io/novaordis/events/csv/event/CSVHeadersTest.java:102-146 | the sample block decodes to the five sample fields, the first a long-typed timestamp |
| HeaderScenarios.ForeignName | main/src/test/java/io/novaordis/events/csv/event/CSVHeadersTest.java:153-164 | a name whose first letter differs from the prefix's is not a header key |
| HeaderScenarios.FilterSkips | main/src/test/java/io/novaordis/events/csv/event/CSVHeadersTest.java:153-164 | extraction passes over a property outside the namespace |
| HeaderScenarios.FilterKeeps | main/src/test/java/io/novaordis/events/csv/event/CSVHeadersTest.java:153-164 | extraction keeps a header property in its place |
| HeaderScenarios.FilterMixedLayout | main/src/test/java/io/novaordis/events/csv/event/CSVHeadersTest.java:153-164 | from the twelve-property layout of the mixed bag, extraction keeps the five header properties in order |
| HeaderScenarios.MixedBagHeaders | main/src/test/java/io/novaordis/events/csv/event/CSVHeadersTest.java:151-164 | the header properties of the mixed bag are the five-column block |
| HeaderScenarios.BareTimestampParses | main/src/test/java/io/novaordis/events/csv/event/CSVHeadersTest.java:154-172 | the bare token `timestamp` decodes to the timestamp field |
| HeaderScenarios.BareNameParses | main/src/test/java/io/novaordis/events/csv/event/CSVHeadersTest.java:156-175 | the bare token `some string` decodes to a field named `some string` |
| HeaderScenarios.IntSampleParses | main/src/test/java/io/novaordis/events/csv/event/CSVHeadersTest.java:159-178 | `some int(int)` decodes to the int field `some int` |
| HeaderScenarios.LongSampleParses | main/src/test/java/io/novaordis/events/csv/event/CSVHeadersTest.java:161-181 | `some long(long)` decodes to the long field `some long` |
| HeaderScenarios.FloatSampleParses | main/src/test/java/io/novaordis/events/csv/event/CSVHeadersTest.java:163-184 | `some float(float)` decodes to the float field `some float` |
| HeaderScenarios.SampleBlockTokensParse | main/src/test/java/io/novaordis/events/csv/event/CSVHeadersTest.java:154-184 | the five tokens of the mixed bag decode to the five sample fields |
| HeaderScenarios.SampleBlockDecodes | main/src/test/java/io/novaordis/events/csv/event/CSVHeadersTest.java:166-184 | the five-column block decodes to the sample fields |
| HeaderScenarios.MixedBagScenario | main/src/test/java/io/novaordis/events/csv/event/CSVHeadersTest.java:148-185 | the mixed bag decodes to the five sample fields despite the seven foreign properties |
| HeaderScenarios.MixedBagThroughCodec | main/src/test/java/io/novaordis/events/csv/event/CSVHeadersTest.java:148-185 | a fresh codec given the twelve setter calls of the test, in the test's order, reads back the five sample fields |
| HeaderScenarios.LoneKeySevenScenario | main/src/test/java/io/novaordis/events/csv/event/CSVHeadersTest.java:187-204 | a bag holding only key 7 fails out of sequence naming key 7 |
| HeaderScenarios.MissingKeyTwoScenario | main/src/test/java/io/novaordis/events/csv/event/CSVHeadersTest.java:206-226 | keys 0, 1 and 3 fail out of sequence naming key 3 |
| HeaderScenarios.NonNumericKeyScenario | main/src/test/java/io/novaordis/events/csv/event/CSVHeadersTest.java:228-246 | the key with suffix `blah` fails as an invalid header property name naming that key |
| HeaderScenarios.UnknownTypeScenario | main/src/test/java/io/novaordis/events/csv/event/CSVHeadersTest.java:248-269 | `something(no-such-type)` fails as an invalid specification naming the token, with a format error for the unknown type as cause |
| HeaderScenarios.PaddedColumnName | main/src/test/java/io/novaordis/events/csv/event/CSVHeadersTest.java:288-294 | a name with non-blank ends, padded with blanks on either side, is stored as that name unless it spells `timestamp` in some letter case |
| HeaderScenarios.TimestampColumnName | main/src/test/java/io/novaordis/events/csv/event/CSVHeadersTest.java:284-286 | the column `timestamp` is stored as the timestamp name |
| HeaderScenarios.StoreThreeNames | main/src/test/java/io/novaordis/events/csv/event/CSVHeadersTest.java:280-295 | three names loaded into an empty bag sit under keys 0, 1 and 2 |
| HeaderScenarios.StoreThreeColumns | main/src/test/java/io/novaordis/events/csv/event/CSVHeadersTest.java:280-295 | three columns are stored as their names under keys 0, 1 and 2 |
| HeaderScenarios.NoBlankColumn | main/src/test/java/io/novaordis/events/csv/event/CSVHeadersTest.java:273-295 | three non-blank columns have no missing header |
| HeaderScenarios.BlankThirdColumn | main/src/test/java/io/novaordis/events/csv/event/CSVHeadersTest.java:316-333 | a blank third column after two non-blank ones is the missing header |
| HeaderScenarios.SplitTimestampAB | main/src/test/java/io/novaordis/events/csv/event/CSVHeadersTest.java:278 | `timestamp, A, B` splits into `timestamp`, ` A`, ` B` |
| HeaderScenarios.LoadScenario | main/src/test/java/io/novaordis/events/csv/event/CSVHeadersTest.java:273-295 | loading `timestamp, A, B` passes and stores exactly the timestamp name, `A` and `B` under the keys `HEADER_NAME_PREFIX + "0"`, `"1"` and `"2"`, spelled as the test spells them |
| HeaderScenarios.BlankMiddleColumnScenario | main/src/test/java/io/novaordis/events/csv/event/CSVHeadersTest.java:297-314 | loading `timestamp, , B` fails at column 1 |
| HeaderScenarios.BlankLastColumnScenario | main/src/test/java/io/novaordis/events/csv/event/CSVHeadersTest.java:316-333 | loading `timestamp, A, ` fails at column 2, the trailing blank column |
| HeaderScenarios.SplitABC | main/src/test/java/io/novaordis/events/csv/event/CSVHeadersTest.java:342 | `A, B, C` splits into `A`, ` B`, ` C` |
| HeaderScenarios.NoTimestampScenario | main/src/test/java/io/novaordis/events/csv/event/CSVHeadersTest.java:335-359 | loading `A, B, C` passes and stores exactly `A`, `B` and `C` under the keys `HEADER_NAME_PREFIX + "0"`, `"1"` and `"2"`, spelled as the test spells them |
| HeaderScenarios.LoadThroughCodec | main/src/test/java/io/novaordis/events/csv/event/CSVHeadersTest.java:273-295 | a fresh codec loading `timestamp, A, B` at line 7 passes and holds exactly the timestamp name, `A` and `B` under the keys `HEADER_NAME_PREFIX + "0"`, `"1"` and `"2"`, spelled as the test spells them |
| HeaderScenarios.BlankMiddleColumnThroughCodec | main/src/test/java/io/novaordis/events/csv/event/CSVHeadersTest.java:297-314 | a fresh codec loading `timestamp, , B` at line 7 fails with line 7, no position in the line and missing column 1 |

## Left out

- `main/src/main/java/io/novaordis/events/csv/cli/Help.java`: each of its methods throws as unimplemented (lines 43, 48, 53 and 58), so it has no behaviour to model.
- The implementations of `CSVHeaders`, `CSVFieldImpl`, `TimestampCSVField`, `GenericEvent` and the property classes are not part of this model. The behaviour is taken from what `CSVHeadersTest.java` asserts. Where the tests are silent, the model makes its own choices, and none of these is pinned down by any test:
  - matching the timestamp column name ignoring case;
  - the `double` tag;
  - reporting the first invalid key in bag order;
  - accepting index suffixes with leading zeros;
  - rejecting misplaced parentheses in a token;
  - the two decoder choices listed under Fields.ParseToken and Headers.TokenOf below.
  - a failed load keeps the names of the columns before the first blank one stored.
- The concrete values of `HEADER_NAME_PREFIX`, `LINE_NUMBER_PROPERTY_NAME` and `TIMESTAMP_PROPERTY_NAME` are not visible.
  - The model uses `csv-header-`, `line-number` and `timestamp`.
  - Lines 154 and 278 pass the literal `timestamp`, and lines 171 and 286 expect `TIMESTAMP_PROPERTY_NAME` back. The model assumes the two are the same text. That assumption is consistent with those tests, but the tests do not show it.
  - The proofs use only that the line-number name lies outside the header namespace, and that the prefix does not start with a letter used by the scenario properties.
- Java `Class` objects become the closed datatype `FieldType`. The timestamp column's type is `LongType`.
- Headers.GetFields: a bare token other than the timestamp name decodes as a string column. The tests assert only its name (lines 156 and 175), so the type is a modelling choice.
- Text.Split: Java's `String.split` drops trailing empty pieces, and the model keeps them. This differs only for a line ending in a bare comma: for `A,B,` Java gives two columns and the load passes, while the model gives an empty third column and the load fails at column 2.
- Headers.KeyIndex: a suffix is read as an unbounded non-negative decimal number. A sign, and a value beyond the range of Java's `int`, are not modelled.
- Text.ToLowerAscii: case folding covers ASCII letters only, not all of Unicode.
- Fields.ParseToken: a tagged token splits at its last `(`. A format carried inside a token is not modelled, so every decoded field has no format.
- Fields.ParseToken: a token `head(time)` decodes to the timestamp field whatever its head, and the head is dropped. The codec itself only writes the timestamp name as that head.
- Fields.ParseToken: only a token without any parenthesis is read as a bare column name, which is the exception lines 154 and 156 show. Any other token that is not `head(tag)` fails with a `Malformed` format error.
- Headers.TokenOf: a header property holding a long is read through its decimal text instead of being rejected. The tests only ever set header properties as strings.
- Error messages and exception classes are not modelled. They are replaced by the `HeaderError` and `ParsingError` datatypes, which carry the offending key or token, the cause, the line number, the missing column, and an absent position in the line.
- A null line number is not modelled. The line number is an `int`, and a long's 64-bit range is not enforced.
- Headers.CSVHeaders.Load: the line number is carried only in the error. No property is stored for it, as line 282 shows.
