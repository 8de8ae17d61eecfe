/** The content form (`ContentModal`, in `reusable/`): its fields, the
    prefill from a row being edited, validation and the submission gate,
    the multipart form it sends, the error toast text, and the metadata
    picker that can create new metadata. */
module ContentModal {
  import opened Common
  import opened Json
  import Text
  import Seqs
  import opened FrontendTypes
  import Grouping
  import opened StandardizeFormat

  datatype ModalType = Add | Edit

  /** The form's fields, in the order `default_fields` declares them. */
  datatype FieldKey =
    | ContentFile | Title | Description | Year | ReviewedOn | MetadataField
    | RightsStatement | AdditionalNotes | OriginalSource | Copyright | Duplicatable

  const FieldKeys: seq<FieldKey> :=
    [ContentFile, Title, Description, Year, ReviewedOn, MetadataField,
     RightsStatement, AdditionalNotes, OriginalSource, Copyright, Duplicatable]

  /** The values of the form. The chosen file is known by its name; the
      review date is an ordered integer. */
  datatype ContentFields = ContentFields(
    contentFile: Option<string>, title: string, description: string, year: string,
    reviewedOn: Option<int>, metadata: map<string, seq<SerializedMetadata>>,
    rightsStatement: string, additionalNotes: string, originalSource: string,
    copyright: string, duplicatable: bool)

  /** A field's value, as its validator receives it. */
  datatype FieldValue =
    | FileValue(file: Option<string>)
    | TextValue(text: string)
    | DateValue(date: Option<int>)
    | MetadataValue(chosen: map<string, seq<SerializedMetadata>>)
    | FlagValue(flag: bool)

  function FieldOf(f: ContentFields, k: FieldKey): FieldValue
  {
    match k
    case ContentFile => FileValue(f.contentFile)
    case Title => TextValue(f.title)
    case Description => TextValue(f.description)
    case Year => TextValue(f.year)
    case ReviewedOn => DateValue(f.reviewedOn)
    case MetadataField => MetadataValue(f.metadata)
    case RightsStatement => TextValue(f.rightsStatement)
    case AdditionalNotes => TextValue(f.additionalNotes)
    case OriginalSource => TextValue(f.originalSource)
    case Copyright => TextValue(f.copyright)
    case Duplicatable => FlagValue(f.duplicatable)
  }

  /** An empty list of chosen metadata for every type name. */
  function EmptyChoice(types: seq<SerializedMetadataType>): (r: map<string, seq<SerializedMetadata>>)
    ensures forall name :: name in r <==> exists t :: t in types && t.name == name
    ensures forall name :: name in r ==> r[name] == []
  {
    map t | t in types :: t.name := []
  }

  /** `default_fields`. */
  function DefaultFields(types: seq<SerializedMetadataType>): ContentFields
  {
    ContentFields(None, "", "", "", None, EmptyChoice(types), "", "", "", "", false)
  }

  /** Every field without a reason. */
  const NoReasons: map<FieldKey, string> := map k | k in FieldKeys :: ""

  /** The reason of a field, `""` when it has none. */
  function Reason(reasons: map<FieldKey, string>, k: FieldKey): string
  {
    if k in reasons then reasons[k] else ""
  }

  predicate AllValid(reasons: map<FieldKey, string>)
  {
    forall k :: k in FieldKeys ==> Reason(reasons, k) == ""
  }

  /** Every field's reason is its validator's verdict on its value. */
  function Validated(f: ContentFields, validators: FieldKey -> FieldValue -> string): (r: map<FieldKey, string>)
    ensures r.Keys == set k | k in FieldKeys
    ensures forall k :: k in FieldKeys ==> r[k] == validators(k)(FieldOf(f, k))
  {
    map k | k in FieldKeys :: validators(k)(FieldOf(f, k))
  }

  // ---- Edit prefill -------------------------------------------------------

  /** The bucket name of a metadata type. */
  function TypeName(t: SerializedMetadataType): string
  {
    t.name
  }

  /** A metadata record goes to the bucket of the type with its type id. */
  function SameTypeId(t: SerializedMetadataType): SerializedMetadata -> bool
  {
    (m: SerializedMetadata) => m.typeId == t.id
  }

  function OrEmpty(s: Option<string>): (r: string)
    ensures s.None? ==> r == ""
    ensures s.Some? ==> r == s.value
  {
    if s.Some? then s.value else ""
  }

  /** The fields of a row being edited: null texts become empty, no file is
      chosen, and the row's metadata is grouped per type by type id. The
      review date is not part of the prefill. */
  function PrefilledFields(row: SerializedContent, types: seq<SerializedMetadataType>, reviewedOn: Option<int>): ContentFields
  {
    ContentFields(
      contentFile := None,
      title := row.title,
      description := OrEmpty(row.description),
      year := OrEmpty(row.publishedYear),
      reviewedOn := reviewedOn,
      metadata := Grouping.Grouped(types, TypeName, SameTypeId, row.metadataInfo),
      rightsStatement := OrEmpty(row.rightsStatement),
      additionalNotes := OrEmpty(row.additionalNotes),
      originalSource := OrEmpty(row.originalSource),
      copyright := OrEmpty(row.copyright),
      duplicatable := row.duplicatable)
  }

  /** The prefilled metadata has a list for every type name; when type
      names are unique each list holds exactly the row's metadata with that
      type's id, in order; and a metadata of no listed type is in no list. */
  lemma PrefilledMetadata(row: SerializedContent, types: seq<SerializedMetadataType>, reviewedOn: Option<int>)
    ensures var chosen := PrefilledFields(row, types, reviewedOn).metadata;
            && (forall name :: name in chosen <==> exists t :: t in types && t.name == name)
            && ((forall a, b :: 0 <= a < b < |types| ==> types[a].name != types[b].name) ==>
                  forall i :: 0 <= i < |types| ==>
                    types[i].name in chosen && chosen[types[i].name] == Seqs.Filter(row.metadataInfo, SameTypeId(types[i])))
            && (forall name, m :: name in chosen && m in chosen[name] ==>
                  m in row.metadataInfo && exists t :: t in types && t.name == name && m.typeId == t.id)
  {
    var chosen := PrefilledFields(row, types, reviewedOn).metadata;
    Grouping.GroupedKeys(types, TypeName, SameTypeId, row.metadataInfo);
    if forall a, b :: 0 <= a < b < |types| ==> types[a].name != types[b].name {
      forall i | 0 <= i < |types|
        ensures types[i].name in chosen
        ensures chosen[types[i].name] == Seqs.Filter(row.metadataInfo, SameTypeId(types[i]))
      {
        Grouping.GroupedBucket(types, TypeName, SameTypeId, row.metadataInfo, i);
      }
    }
    forall name, m | name in chosen && m in chosen[name]
      ensures m in row.metadataInfo && exists t :: t in types && t.name == name && m.typeId == t.id
    {
      Grouping.GroupedMembers(types, TypeName, SameTypeId, row.metadataInfo, name, m);
    }
  }

  // ---- The multipart form -------------------------------------------------

  /** How a boolean is sent. */
  function BoolText(b: bool): string
  {
    if b then "true" else "false"
  }

  /** The `active` entry: new content is active; edited content keeps the
      row's flag (false when there is no row). */
  function ActiveText(mode: ModalType, row: Option<SerializedContent>): string
  {
    if mode == Add then "true" else BoolText(row.Some? && row.value.active)
  }

  /** The names the form's entries are sent under. */
  datatype FormKey =
    | FileEntry | TitleEntry | DescriptionEntry | DuplicatableEntry | RightsEntry | SourceEntry
    | NotesEntry | CopyrightEntry | PublishedEntry | ActiveEntry | ReviewedEntry | MetadataEntry

  function FormName(k: FormKey): string
  {
    match k
    case FileEntry => "content_file"
    case TitleEntry => "title"
    case DescriptionEntry => "description"
    case DuplicatableEntry => "duplicatable"
    case RightsEntry => "rights_statement"
    case SourceEntry => "original_source"
    case NotesEntry => "additional_notes"
    case CopyrightEntry => "copyright"
    case PublishedEntry => "published_date"
    case ActiveEntry => "active"
    case ReviewedEntry => "reviewed_on"
    case MetadataEntry => "metadata"
  }

  /** One form entry: its name and its text. */
  type Entry = (FormKey, string)

  /** One `metadata` entry per chosen metadata, in order. */
  function IdEntries(ms: seq<SerializedMetadata>): (r: seq<Entry>)
    ensures |r| == |ms|
    ensures forall i :: 0 <= i < |ms| ==> r[i] == (MetadataEntry, Text.IntToString(ms[i].id))
  {
    seq(|ms|, i requires 0 <= i < |ms| => (MetadataEntry, Text.IntToString(ms[i].id)))
  }

  /** The `metadata` entries: for each known type whose name is a key of
      the chosen metadata, the ids chosen under it. */
  function MetadataEntries(types: seq<SerializedMetadataType>, chosen: map<string, seq<SerializedMetadata>>): seq<Entry>
  {
    if |types| == 0 then []
    else
      var t := types[|types| - 1];
      MetadataEntries(types[..|types| - 1], chosen) + (if t.name in chosen then IdEntries(chosen[t.name]) else [])
  }

  /** The entries every submission carries, in the order they are appended. */
  function FixedEntries(mode: ModalType, f: ContentFields, row: Option<SerializedContent>): seq<Entry>
  {
    [(TitleEntry, f.title), (DescriptionEntry, f.description), (DuplicatableEntry, BoolText(f.duplicatable)),
     (RightsEntry, f.rightsStatement), (SourceEntry, f.originalSource), (NotesEntry, f.additionalNotes),
     (CopyrightEntry, f.copyright), (PublishedEntry, f.year + "-01-01"), (ActiveEntry, ActiveText(mode, row))]
  }

  function FileEntries(f: ContentFields): seq<Entry>
  {
    if f.contentFile.Some? then [(FileEntry, f.contentFile.value)] else []
  }

  function ReviewedEntries(f: ContentFields, dateText: int -> string): seq<Entry>
  {
    if f.reviewedOn.Some? then [(ReviewedEntry, dateText(f.reviewedOn.value))] else []
  }

  /** The form the submit handler sends, as a value. `dateText` renders the
      review date as `yyyy-MM-dd`. */
  function FormEntries(mode: ModalType, f: ContentFields, row: Option<SerializedContent>,
                       types: seq<SerializedMetadataType>, dateText: int -> string): seq<Entry>
  {
    FileEntries(f) + FixedEntries(mode, f, row) + ReviewedEntries(f, dateText) + MetadataEntries(types, f.metadata)
  }

  /** The values sent under `key`, in order (`FormData.getAll`). */
  function FormValues(form: seq<Entry>, key: FormKey): seq<string>
  {
    if |form| == 0 then []
    else FormValues(form[..|form| - 1], key) + (if form[|form| - 1].0 == key then [form[|form| - 1].1] else [])
  }

  lemma {:induction false} FormValuesConcat(a: seq<Entry>, b: seq<Entry>, key: FormKey)
    ensures FormValues(a + b, key) == FormValues(a, key) + FormValues(b, key)
    decreases |b|
  {
    if |b| == 0 {
      assert a + b == a;
    } else {
      var n := |b| - 1;
      assert (a + b)[..|a + b| - 1] == a + b[..n];
      FormValuesConcat(a, b[..n], key);
    }
  }

  /** A text is sent under `key` exactly when the form has that entry. */
  lemma {:induction false} FormValuesMembers(form: seq<Entry>, key: FormKey, text: string)
    ensures text in FormValues(form, key) <==> (key, text) in form
  {
    if |form| > 0 {
      var n := |form| - 1;
      FormValuesMembers(form[..n], key, text);
      assert form == form[..n] + [form[n]];
    }
  }

  /** Entries that all carry another key contribute no value. */
  lemma {:induction false} FormValuesOtherKeys(form: seq<Entry>, key: FormKey)
    requires forall j :: 0 <= j < |form| ==> form[j].0 != key
    ensures FormValues(form, key) == []
  {
    if |form| > 0 {
      FormValuesOtherKeys(form[..|form| - 1], key);
    }
  }

  /** A key carried by exactly one entry reads back as that entry's text. */
  lemma FormValuesSingle(form: seq<Entry>, key: FormKey, i: nat)
    requires i < |form| && form[i].0 == key
    requires forall j :: 0 <= j < |form| && j != i ==> form[j].0 != key
    ensures FormValues(form, key) == [form[i].1]
  {
    var before, after := form[..i], form[i + 1..];
    assert form == before + [form[i]] + after;
    FormValuesOtherKeys(before, key);
    FormValuesOtherKeys(after, key);
    FormValuesConcat(before + [form[i]], after, key);
    FormValuesConcat(before, [form[i]], key);
    assert [form[i]][..0] == [];
  }

  /** Every `metadata` entry carries the `metadata` key. */
  lemma {:induction false} MetadataEntriesKeys(types: seq<SerializedMetadataType>, chosen: map<string, seq<SerializedMetadata>>)
    ensures forall j :: 0 <= j < |MetadataEntries(types, chosen)| ==> MetadataEntries(types, chosen)[j].0 == MetadataEntry
  {
    if |types| > 0 {
      MetadataEntriesKeys(types[..|types| - 1], chosen);
    }
  }

  /** The `metadata` entries carry nothing under any other name. */
  lemma MetadataValuesOtherKeys(types: seq<SerializedMetadataType>, chosen: map<string, seq<SerializedMetadata>>, key: FormKey)
    requires key != MetadataEntry
    ensures FormValues(MetadataEntries(types, chosen), key) == []
  {
    MetadataEntriesKeys(types, chosen);
    FormValuesOtherKeys(MetadataEntries(types, chosen), key);
  }

  /** Every `metadata` entry comes from a metadata chosen for a known type. */
  lemma {:induction false} MetadataEntriesSound(types: seq<SerializedMetadataType>, chosen: map<string, seq<SerializedMetadata>>, text: string)
    requires (MetadataEntry, text) in MetadataEntries(types, chosen)
    ensures exists t, m :: t in types && t.name in chosen && m in chosen[t.name] && text == Text.IntToString(m.id)
  {
    var n := |types| - 1;
    var pre, t := types[..n], types[n];
    var block := if t.name in chosen then IdEntries(chosen[t.name]) else [];
    assert MetadataEntries(types, chosen) == MetadataEntries(pre, chosen) + block;
    if (MetadataEntry, text) in MetadataEntries(pre, chosen) {
      MetadataEntriesSound(pre, chosen, text);
      var u, m :| u in pre && u.name in chosen && m in chosen[u.name] && text == Text.IntToString(m.id);
      assert u in types;
    } else {
      assert (MetadataEntry, text) in block && t.name in chosen;
      var i :| 0 <= i < |chosen[t.name]| && IdEntries(chosen[t.name])[i] == (MetadataEntry, text);
      assert chosen[t.name][i] in chosen[t.name];
    }
  }

  /** Every metadata chosen for a known type has its `metadata` entry. */
  lemma {:induction false} MetadataEntriesComplete(types: seq<SerializedMetadataType>, chosen: map<string, seq<SerializedMetadata>>,
                                                   t: SerializedMetadataType, m: SerializedMetadata)
    requires t in types && t.name in chosen && m in chosen[t.name]
    ensures (MetadataEntry, Text.IntToString(m.id)) in MetadataEntries(types, chosen)
  {
    var n := |types| - 1;
    var pre := types[..n];
    assert types == pre + [types[n]];
    if t in pre {
      MetadataEntriesComplete(pre, chosen, t, m);
    } else {
      var i :| 0 <= i < |chosen[t.name]| && chosen[t.name][i] == m;
      assert IdEntries(chosen[t.name])[i] == (MetadataEntry, Text.IntToString(m.id));
    }
  }

  /** An id is sent under `metadata` exactly when some known type's chosen
      list holds a metadata with that id. */
  lemma MetadataEntriesMembers(types: seq<SerializedMetadataType>, chosen: map<string, seq<SerializedMetadata>>, text: string)
    ensures (MetadataEntry, text) in MetadataEntries(types, chosen)
            <==> exists t, m :: t in types && t.name in chosen && m in chosen[t.name] && text == Text.IntToString(m.id)
  {
    if (MetadataEntry, text) in MetadataEntries(types, chosen) {
      MetadataEntriesSound(types, chosen, text);
    }
    if exists t, m :: t in types && t.name in chosen && m in chosen[t.name] && text == Text.IntToString(m.id) {
      var t, m :| t in types && t.name in chosen && m in chosen[t.name] && text == Text.IntToString(m.id);
      MetadataEntriesComplete(types, chosen, t, m);
    }
  }

  /** The texts each field's name should read back: the field's own
      value, the publication date as January 1 of the year, `active` as the
      mode prescribes, and the optional entries only when set. */
  function Expected(mode: ModalType, f: ContentFields, row: Option<SerializedContent>,
                    dateText: int -> string, key: FormKey): seq<string>
    requires key != MetadataEntry
  {
    match key
    case FileEntry => if f.contentFile.Some? then [f.contentFile.value] else []
    case TitleEntry => [f.title]
    case DescriptionEntry => [f.description]
    case DuplicatableEntry => [BoolText(f.duplicatable)]
    case RightsEntry => [f.rightsStatement]
    case SourceEntry => [f.originalSource]
    case NotesEntry => [f.additionalNotes]
    case CopyrightEntry => [f.copyright]
    case PublishedEntry => [f.year + "-01-01"]
    case ActiveEntry => [ActiveText(mode, row)]
    case ReviewedEntry => if f.reviewedOn.Some? then [dateText(f.reviewedOn.value)] else []
  }

  /** The fixed part carries the first four names once each. */
  lemma FixedValuesFirst(mode: ModalType, f: ContentFields, row: Option<SerializedContent>,
                         dateText: int -> string, key: FormKey)
    requires key == TitleEntry || key == DescriptionEntry || key == DuplicatableEntry || key == RightsEntry
    ensures FormValues(FixedEntries(mode, f, row), key) == Expected(mode, f, row, dateText, key)
  {
    var fixed := FixedEntries(mode, f, row);
    match key
    case TitleEntry => FormValuesSingle(fixed, key, 0);
    case DescriptionEntry => FormValuesSingle(fixed, key, 1);
    case DuplicatableEntry => FormValuesSingle(fixed, key, 2);
    case RightsEntry => FormValuesSingle(fixed, key, 3);
  }

  /** The fixed part carries the last five names once each. */
  lemma FixedValuesLast(mode: ModalType, f: ContentFields, row: Option<SerializedContent>,
                        dateText: int -> string, key: FormKey)
    requires key == SourceEntry || key == NotesEntry || key == CopyrightEntry || key == PublishedEntry || key == ActiveEntry
    ensures FormValues(FixedEntries(mode, f, row), key) == Expected(mode, f, row, dateText, key)
  {
    var fixed := FixedEntries(mode, f, row);
    match key
    case SourceEntry => FormValuesSingle(fixed, key, 4);
    case NotesEntry => FormValuesSingle(fixed, key, 5);
    case CopyrightEntry => FormValuesSingle(fixed, key, 6);
    case PublishedEntry => FormValuesSingle(fixed, key, 7);
    case ActiveEntry => FormValuesSingle(fixed, key, 8);
  }

  /** The fixed part carries nothing under the three optional names. */
  lemma FixedOtherKeys(mode: ModalType, f: ContentFields, row: Option<SerializedContent>, key: FormKey)
    requires key == FileEntry || key == ReviewedEntry || key == MetadataEntry
    ensures FormValues(FixedEntries(mode, f, row), key) == []
  {
    FormValuesOtherKeys(FixedEntries(mode, f, row), key);
  }

  /** What the fixed part of the form carries under each key: the expected
      text under its nine names, nothing under the other three. */
  lemma FixedValues(mode: ModalType, f: ContentFields, row: Option<SerializedContent>,
                    dateText: int -> string, key: FormKey)
    ensures key == FileEntry || key == ReviewedEntry || key == MetadataEntry ==>
              FormValues(FixedEntries(mode, f, row), key) == []
    ensures key != FileEntry && key != ReviewedEntry && key != MetadataEntry ==>
              FormValues(FixedEntries(mode, f, row), key) == Expected(mode, f, row, dateText, key)
  {
    if key == FileEntry || key == ReviewedEntry || key == MetadataEntry {
      FixedOtherKeys(mode, f, row, key);
    } else if key == TitleEntry || key == DescriptionEntry || key == DuplicatableEntry || key == RightsEntry {
      FixedValuesFirst(mode, f, row, dateText, key);
    } else {
      FixedValuesLast(mode, f, row, dateText, key);
    }
  }

  /** The values of the whole form under each key: the four parts'. */
  lemma FormParts(mode: ModalType, f: ContentFields, row: Option<SerializedContent>,
                  types: seq<SerializedMetadataType>, dateText: int -> string, key: FormKey)
    ensures FormValues(FormEntries(mode, f, row, types, dateText), key)
            == FormValues(FileEntries(f), key) + FormValues(FixedEntries(mode, f, row), key)
               + FormValues(ReviewedEntries(f, dateText), key) + FormValues(MetadataEntries(types, f.metadata), key)
  {
    var file, fixed, reviewed := FileEntries(f), FixedEntries(mode, f, row), ReviewedEntries(f, dateText);
    FormValuesConcat(file + fixed + reviewed, MetadataEntries(types, f.metadata), key);
    FormValuesConcat(file + fixed, reviewed, key);
    FormValuesConcat(file, fixed, key);
    if f.contentFile.Some? {
      assert file[..0] == [];
    }
    if f.reviewedOn.Some? {
      assert reviewed[..0] == [];
    }
  }

  /** What the optional entries carry under each key. */
  lemma OptionalValues(f: ContentFields, dateText: int -> string, key: FormKey)
    ensures FormValues(FileEntries(f), key) == (if key == FileEntry && f.contentFile.Some? then [f.contentFile.value] else [])
    ensures FormValues(ReviewedEntries(f, dateText), key)
            == (if key == ReviewedEntry && f.reviewedOn.Some? then [dateText(f.reviewedOn.value)] else [])
  {
    if f.contentFile.Some? {
      assert FileEntries(f)[..0] == [];
    }
    if f.reviewedOn.Some? {
      assert ReviewedEntries(f, dateText)[..0] == [];
    }
  }

  /** The whole form reads back under `key` as its part `part` does, when
      the other parts carry nothing under `key`. */
  lemma FormReadsAsPart(mode: ModalType, f: ContentFields, row: Option<SerializedContent>,
                        types: seq<SerializedMetadataType>, dateText: int -> string, key: FormKey)
    requires key != MetadataEntry
    ensures key == FileEntry ==>
              FormValues(FormEntries(mode, f, row, types, dateText), key) == FormValues(FileEntries(f), key)
    ensures key == ReviewedEntry ==>
              FormValues(FormEntries(mode, f, row, types, dateText), key) == FormValues(ReviewedEntries(f, dateText), key)
    ensures key != FileEntry && key != ReviewedEntry ==>
              FormValues(FormEntries(mode, f, row, types, dateText), key) == FormValues(FixedEntries(mode, f, row), key)
  {
    FormParts(mode, f, row, types, dateText, key);
    var file := FormValues(FileEntries(f), key);
    var fixed := FormValues(FixedEntries(mode, f, row), key);
    var reviewed := FormValues(ReviewedEntries(f, dateText), key);
    MetadataValuesOtherKeys(types, f.metadata, key);
    OptionalValues(f, dateText, key);
    if key == FileEntry || key == ReviewedEntry {
      FixedOtherKeys(mode, f, row, key);
    }
    if key == FileEntry {
      assert file + fixed + reviewed + [] == file;
    } else if key == ReviewedEntry {
      assert file + fixed + reviewed + [] == reviewed;
    } else {
      assert file + fixed + reviewed + [] == fixed;
    }
  }

  /** Reading the form back: every name other than `metadata` carries
      exactly the expected texts. */
  lemma FormReadBack(mode: ModalType, f: ContentFields, row: Option<SerializedContent>,
                     types: seq<SerializedMetadataType>, dateText: int -> string, key: FormKey)
    requires key != MetadataEntry
    ensures FormValues(FormEntries(mode, f, row, types, dateText), key) == Expected(mode, f, row, dateText, key)
  {
    FormReadsAsPart(mode, f, row, types, dateText, key);
    OptionalValues(f, dateText, key);
    FixedValues(mode, f, row, dateText, key);
  }

  /** Under `metadata` the form carries exactly the ids of the metadata
      chosen for known types. */
  lemma FormMetadata(mode: ModalType, f: ContentFields, row: Option<SerializedContent>,
                     types: seq<SerializedMetadataType>, dateText: int -> string, text: string)
    ensures text in FormValues(FormEntries(mode, f, row, types, dateText), MetadataEntry) <==>
              exists t, m :: t in types && t.name in f.metadata && m in f.metadata[t.name] && text == Text.IntToString(m.id)
  {
    FixedValues(mode, f, row, dateText, MetadataEntry);
    FormParts(mode, f, row, types, dateText, MetadataEntry);
    OptionalValues(f, dateText, MetadataEntry);
    FormValuesMembers(MetadataEntries(types, f.metadata), MetadataEntry, text);
    MetadataEntriesMembers(types, f.metadata, text);
  }

  /** The entries of one more known type. */
  lemma MetadataEntriesStep(types: seq<SerializedMetadataType>, chosen: map<string, seq<SerializedMetadata>>, i: nat)
    requires i < |types|
    ensures MetadataEntries(types[..i + 1], chosen)
            == MetadataEntries(types[..i], chosen) + (if types[i].name in chosen then IdEntries(chosen[types[i].name]) else [])
  {
    assert types[..i + 1][..i] == types[..i];
  }

  /** The inner append loop: one `metadata` entry per chosen metadata. */
  method AppendIds(head: seq<Entry>, ms: seq<SerializedMetadata>) returns (form: seq<Entry>)
    ensures form == head + IdEntries(ms)
  {
    form := head;
    var j := 0;
    while j < |ms|
      invariant 0 <= j <= |ms|
      invariant form == head + IdEntries(ms[..j])
    {
      form := form + [(MetadataEntry, Text.IntToString(ms[j].id))];
      assert IdEntries(ms[..j + 1]) == IdEntries(ms[..j]) + [(MetadataEntry, Text.IntToString(ms[j].id))];
      j := j + 1;
    }
    assert ms[..j] == ms;
  }

  /** The metadata appends: for each known type whose name has a chosen
      list, one entry per chosen metadata. */
  method AppendMetadata(head: seq<Entry>, types: seq<SerializedMetadataType>, chosen: map<string, seq<SerializedMetadata>>)
    returns (form: seq<Entry>)
    ensures form == head + MetadataEntries(types, chosen)
  {
    form := head;
    var i := 0;
    while i < |types|
      invariant 0 <= i <= |types|
      invariant form == head + MetadataEntries(types[..i], chosen)
    {
      var t := types[i];
      MetadataEntriesStep(types, chosen, i);
      if t.name in chosen {
        form := AppendIds(form, chosen[t.name]);
      }
      i := i + 1;
    }
    assert types[..i] == types;
  }

  // ---- Submission ---------------------------------------------------------

  datatype Request = Post | Patch(id: int)

  datatype SubmitOutcome =
    | Invalid                                             // some field has a reason: nothing is sent
    | NoFile                                              // adding without a file: nothing is sent
    | Send(request: Request, form: seq<Entry>)

  /** The request a submission sends in each mode. */
  function RequestOf(mode: ModalType, row: Option<SerializedContent>): Request
  {
    if mode == Add then Post else Patch(if row.Some? then row.value.id else 0)
  }

  /** The error toast's text for a rejected request, given the server's
      response if any: the mode's fallback when the body has no `error`; the
      first element of an array; a string itself; otherwise the first value
      of the object. `None` when `error` is `null`, where reading its values
      throws. */
  function ErrorString(mode: ModalType, response: Option<Reply>): (r: Option<Value>)
    ensures var err := if response.Some? then Get(response.value.body, "error") else Undefined;
            && (err == Undefined ==> r == Some(Str(UnknownErrorText(mode))))
            && (err.Arr? && |err.items| > 0 ==> r == Some(err.items[0]))
            && (err.Str? ==> r == Some(err))
            && (err.Obj? && |err.entries| > 0 ==> r == Some(Get(err, err.entries[0].0)))
            && (r.None? <==> err == Null)
  {
    var err := if response.Some? then Get(response.value.body, "error") else Undefined;
    match err
    case Undefined => Some(Str(UnknownErrorText(mode)))
    case Arr(items) => Some(if |items| > 0 then items[0] else Undefined)
    case Str(_) => Some(err)
    case Null => None
    case Obj(entries) => Some(if |entries| > 0 then Get(err, entries[0].0) else Undefined)
    case Num(_) => Some(Undefined)
    case Bool(_) => Some(Undefined)
  }

  function UnknownErrorText(mode: ModalType): string
  {
    if mode == Add then "Error while adding content" else "Error while editing content"
  }

  /** When the server's exception handler wrapped an error detail object,
      the toast shows the detail's first message. */
  lemma ErrorStringOfHandledException(mode: ModalType, status: int, key: string, message: string)
    ensures ErrorString(mode, Some(Reply(status, ErrorEnvelope(Obj([(key, Str(message))]))))) == Some(Str(message))
  {
  }

  // ---- Metadata picker ----------------------------------------------------

  /** Whether a token is a real metadata (not an "add new" token, id 0). */
  function IsReal(m: SerializedMetadata): bool
  {
    m.id != 0
  }

  /** The picker's value split into real metadata and "add new" tokens. */
  function SplitTokens(value: seq<SerializedMetadata>): (seq<SerializedMetadata>, seq<SerializedMetadata>)
  {
    (Seqs.Filter(value, IsReal), Seqs.Filter(value, Seqs.Not(IsReal)))
  }

  /** The first part holds exactly the real metadata of the value and the
      second exactly its "add new" tokens; together they are the value, with
      multiplicity. */
  lemma SplitTokensPartition(value: seq<SerializedMetadata>)
    ensures forall m :: m in SplitTokens(value).0 <==> m in value && m.id != 0
    ensures forall m :: m in SplitTokens(value).1 <==> m in value && m.id == 0
    ensures multiset(SplitTokens(value).0) + multiset(SplitTokens(value).1) == multiset(value)
  {
    forall m
      ensures m in SplitTokens(value).0 <==> m in value && m.id != 0
      ensures m in SplitTokens(value).1 <==> m in value && m.id == 0
    {
      Seqs.FilterMembership(value, IsReal, m);
      Seqs.FilterMembership(value, Seqs.Not(IsReal), m);
    }
    Seqs.FilterPartition(value, IsReal);
  }

  class ContentModal {
    var fields: ContentFields
    var reasons: map<FieldKey, string>

    /** A fresh form for the given metadata types. */
    constructor (types: seq<SerializedMetadataType>)
      ensures fields == DefaultFields(types) && reasons == NoReasons
    {
      fields := DefaultFields(types);
      reasons := NoReasons;
    }

    /** `componentDidUpdate`: when editing and the row has changed, every
        field except the review date is refilled from the row, and the
        refilled fields lose their reasons. */
    method ComponentDidUpdate(mode: ModalType, row: Option<SerializedContent>, previousRow: Option<SerializedContent>,
                              types: seq<SerializedMetadataType>)
      modifies this
      ensures mode == Edit && row.Some? && row != previousRow ==>
                && fields == PrefilledFields(row.value, types, old(fields).reviewedOn)
                && reasons == NoReasons[ReviewedOn := Reason(old(reasons), ReviewedOn)]
      ensures !(mode == Edit && row.Some? && row != previousRow) ==> fields == old(fields) && reasons == old(reasons)
    {
      if mode == Edit && row.Some? && row != previousRow {
        var metadata := Grouping.GroupBy(types, TypeName, SameTypeId, row.value.metadataInfo);
        fields := PrefilledFields(row.value, types, fields.reviewedOn).(metadata := metadata);
        reasons := NoReasons[ReviewedOn := Reason(reasons, ReviewedOn)];
      }
    }

    /** The validation step: each field's reason becomes its validator's
        verdict on its value. */
    method Validate(validators: FieldKey -> FieldValue -> string)
      modifies this
      ensures reasons == Validated(fields, validators)
      ensures fields == old(fields)
    {
      var i := 0;
      var r: map<FieldKey, string> := map[];
      while i < |FieldKeys|
        invariant 0 <= i <= |FieldKeys|
        invariant r.Keys == set k | k in FieldKeys[..i]
        invariant forall k :: k in r ==> r[k] == validators(k)(FieldOf(fields, k))
      {
        var k := FieldKeys[i];
        r := r[k := validators(k)(FieldOf(fields, k))];
        assert FieldKeys[..i + 1] == FieldKeys[..i] + [k];
        i := i + 1;
      }
      assert FieldKeys[..i] == FieldKeys;
      reasons := r;
    }

    /** The gate: the first field, in declaration order, with a reason. */
    method FirstInvalid() returns (invalid: Option<FieldKey>)
      ensures invalid.None? <==> AllValid(reasons)
      ensures invalid.Some? ==> exists i :: 0 <= i < |FieldKeys| && FieldKeys[i] == invalid.value
                                  && Reason(reasons, invalid.value) != ""
                                  && forall j :: 0 <= j < i ==> Reason(reasons, FieldKeys[j]) == ""
    {
      var i := 0;
      while i < |FieldKeys|
        invariant 0 <= i <= |FieldKeys|
        invariant forall j :: 0 <= j < i ==> Reason(reasons, FieldKeys[j]) == ""
      {
        if Reason(reasons, FieldKeys[i]) != "" {
          return Some(FieldKeys[i]);
        }
        i := i + 1;
      }
      return None;
    }

    /** The form's appends, in order. */
    method BuildForm(mode: ModalType, row: Option<SerializedContent>, types: seq<SerializedMetadataType>,
                     dateText: int -> string) returns (form: seq<Entry>)
      ensures form == FormEntries(mode, fields, row, types, dateText)
    {
      form := [];
      if fields.contentFile.Some? {
        form := form + [(FileEntry, fields.contentFile.value)];
      }
      ghost var file := form;
      assert file == FileEntries(fields);
      form := form + [(TitleEntry, fields.title)];
      form := form + [(DescriptionEntry, fields.description)];
      form := form + [(DuplicatableEntry, BoolText(fields.duplicatable))];
      form := form + [(RightsEntry, fields.rightsStatement)];
      form := form + [(SourceEntry, fields.originalSource)];
      form := form + [(NotesEntry, fields.additionalNotes)];
      form := form + [(CopyrightEntry, fields.copyright)];
      form := form + [(PublishedEntry, fields.year + "-01-01")];
      form := form + [(ActiveEntry, ActiveText(mode, row))];
      assert form == file + FixedEntries(mode, fields, row);
      if fields.reviewedOn.Some? {
        form := form + [(ReviewedEntry, dateText(fields.reviewedOn.value))];
      }
      assert form == file + FixedEntries(mode, fields, row) + ReviewedEntries(fields, dateText);
      form := AppendMetadata(form, types, fields.metadata);
    }

    /** The submit button, given the file input's content: the file is
        stored, every field validated; nothing is sent when a field has a
        reason, or when adding without a file; otherwise the form is posted
        (adding) or patched onto the row (editing). */
    method Submit(mode: ModalType, row: Option<SerializedContent>, types: seq<SerializedMetadataType>,
                  validators: FieldKey -> FieldValue -> string, file: Option<string>, dateText: int -> string)
      returns (outcome: SubmitOutcome)
      modifies this
      ensures fields == old(fields).(contentFile := file)
      ensures reasons == Validated(fields, validators)
      ensures outcome == Invalid <==> !AllValid(reasons)
      ensures outcome == NoFile <==> AllValid(reasons) && file.None? && mode == Add
      ensures outcome.Send? ==> outcome == Send(RequestOf(mode, row), FormEntries(mode, fields, row, types, dateText))
    {
      fields := fields.(contentFile := file);
      Validate(validators);
      var invalid := FirstInvalid();
      if invalid.Some? {
        return Invalid;
      }
      if file.None? && mode == Add {
        return NoFile;
      }
      var form := BuildForm(mode, row, types, dateText);
      outcome := Send(RequestOf(mode, row), form);
    }

    /** The picker for one type changes to `value`. Without "add new" tokens
        the kept metadata become the type's choice and nothing is created.
        Otherwise only the first new token's name is sent to be created; the
        choice is updated only once that request succeeds, with `created`
        (the metadata the reply carries) joining the kept metadata, and is
        left as it was when the request is rejected (`created == None`). */
    method OnMetadataChange(typeName: string, value: seq<SerializedMetadata>, created: Option<SerializedMetadata>)
      returns (toCreate: Option<string>)
      modifies this
      ensures var kept := SplitTokens(value).0; var toAdd := SplitTokens(value).1;
              && (|toAdd| == 0 ==> toCreate == None && fields == old(fields).(metadata := old(fields).metadata[typeName := kept]))
              && (|toAdd| > 0 ==> toCreate == Some(toAdd[0].name))
              && (|toAdd| > 0 && created.None? ==> fields == old(fields))
              && (|toAdd| > 0 && created.Some? ==>
                    fields == old(fields).(metadata := old(fields).metadata[typeName := kept + [created.value]]))
      ensures reasons == old(reasons)
    {
      var (kept, toAdd) := SplitTokens(value);
      toCreate := None;
      if |toAdd| > 0 {
        toCreate := Some(toAdd[0].name);
        if created.None? {
          return;
        }
        kept := kept + [created.value];
      }
      fields := fields.(metadata := fields.metadata[typeName := kept]);
    }
  }
}
