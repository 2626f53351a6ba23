/** The bid-notice record: which fields it has, how a scraped dict is validated
    into it, how it is flattened for CSV export, and the notice collection of
    one crawl session. */
module Schema {
  import opened Wrappers
  import opened Text
  import opened Values

  /** Fields a notice cannot be built without. */
  const RequiredFields: seq<string> := ["bid_notice_number", "bid_notice_name", "announcement_agency"]

  /** Every optional text field of a notice, in five groups: dates and
      identification, method, money and location, contact and terms, the rest. */
  const DateFields: seq<string> := [
    "document_number", "announcement_date", "bid_date", "deadline_date", "opening_date",
    "participation_deadline", "bid_bond_deadline", "delivery_deadline"]
  const MethodFields: seq<string> := [
    "classification", "bid_method", "selection_method", "bid_system", "is_re_bid",
    "is_emergency", "notice_type", "process_type", "is_field_briefing_required"]
  const MoneyFields: seq<string> := [
    "opening_location", "budget_amount", "base_price", "estimated_price", "guarantee_rate",
    "bid_bond", "contract_bond", "delivery_location"]
  const ContactFields: seq<string> := [
    "contact_person", "contact_department", "phone_number", "email", "fax_number",
    "demanding_agency", "payment_terms", "contract_period"]
  const OtherFields: seq<string> := [
    "pre_qualification", "qualification_requirements", "eligible_entities", "specifications",
    "evaluation_criteria", "notes", "detail_link", "status", "source_url"]

  const OptionalTextFields: seq<string> := DateFields + MethodFields + MoneyFields + ContactFields + OtherFields

  /** Every text field, required first. */
  const TextFields: seq<string> := RequiredFields + OptionalTextFields

  /** The fields whose validator turns "" into `None`. */
  const ValidatedDateFields: set<string> := {"announcement_date", "deadline_date", "bid_date", "opening_date"}

  /** An attached file of a notice. */
  datatype AttachedFile = AttachedFile(filename: string, url: Option<string>, size: Option<string>, fileType: Option<string>)

  /** A validated notice.  `text` holds the text fields that are not `None`;
      `additionalInfo` is `None` when the dict was explicitly `None`. */
  datatype BidNotice = BidNotice(
    text: map<string, string>,
    attachedFiles: seq<AttachedFile>,
    crawledAt: string,
    additionalInfo: Option<map<string, Value>>)

  /** The `parse_dates` validator: `None` and "" become `None`, anything else is kept. */
  function ParseDates(v: Value): (r: Value)
    ensures v == Null || v == Str("") ==> r == Null
    ensures v != Null && v != Str("") ==> r == v
  {
    if v == Null || v == Str("") then Null else v
  }

  /** The `parse_attached_files` validator: a list is kept, anything else becomes []. */
  function ParseAttachedFiles(v: Value): (r: Value)
    ensures v.List? ==> r == v
    ensures !v.List? ==> r == List([])
  {
    if v == Null then List([])
    else if v.List? then v
    else List([])
  }

  /** An optional text value: absent, `None` or a string. */
  predicate OptionalText(m: map<string, Value>, key: string) {
    key !in m || m[key].Null? || m[key].Str?
  }

  function OptionalTextValue(m: map<string, Value>, key: string): Option<string> {
    if key in m && m[key].Str? then Some(m[key].s) else None
  }

  /** An `AttachedFile` validated from its dict form; extra keys are ignored. */
  function AttachedFileOf(v: Value): (r: Option<AttachedFile>)
    ensures r.Some? <==> (v.Dict? && "filename" in v.entries && v.entries["filename"].Str?
                          && OptionalText(v.entries, "url") && OptionalText(v.entries, "size")
                          && OptionalText(v.entries, "file_type"))
    ensures r.Some? ==> r.value.filename == v.entries["filename"].s
  {
    if v.Dict? && "filename" in v.entries && v.entries["filename"].Str?
      && OptionalText(v.entries, "url") && OptionalText(v.entries, "size") && OptionalText(v.entries, "file_type")
    then Some(AttachedFile(v.entries["filename"].s, OptionalTextValue(v.entries, "url"),
      OptionalTextValue(v.entries, "size"), OptionalTextValue(v.entries, "file_type")))
    else None
  }

  /** The dict form of an attached file, as `model_dump` gives it. */
  function AttachedFileValue(f: AttachedFile): Value {
    Dict(map["filename" := Str(f.filename), "url" := OptionalValue(f.url),
             "size" := OptionalValue(f.size), "file_type" := OptionalValue(f.fileType)])
  }

  function OptionalValue(o: Option<string>): Value {
    if o.Some? then Str(o.value) else Null
  }

  lemma AttachedFileRoundTrip(f: AttachedFile)
    ensures AttachedFileOf(AttachedFileValue(f)) == Some(f)
  {
  }

  /** Validates every element of a list into an attached file. */
  function AttachedFilesOf(vs: seq<Value>): (r: Option<seq<AttachedFile>>)
    ensures r.Some? ==> |r.value| == |vs|
    ensures r.Some? <==> forall i :: 0 <= i < |vs| ==> AttachedFileOf(vs[i]).Some?
    ensures r.Some? ==> forall i :: 0 <= i < |vs| ==> AttachedFileOf(vs[i]) == Some(r.value[i])
  {
    if vs == [] then Some([])
    else
      var first := AttachedFileOf(vs[0]);
      var rest := AttachedFilesOf(vs[1..]);
      if first.None? || rest.None? then
        assert first.None? ==> AttachedFileOf(vs[0]).None?;
        None
      else
        assert forall i :: 1 <= i < |vs| ==> vs[i] == vs[1..][i - 1];
        Some([first.value] + rest.value)
  }

  /** Whether the value under `field` is acceptable: a required field needs a
      string, an optional one a string or `None`. */
  predicate FieldAccepted(data: Item, field: string) {
    if field in RequiredFields then field in data && data[field].Str?
    else OptionalText(data, field)
  }

  /** The text a field contributes to the notice, after the date validator. */
  function TextValue(data: Item, field: string): Option<string> {
    if field in data && data[field].Str? && !(field in ValidatedDateFields && data[field].s == "")
    then Some(data[field].s) else None
  }

  /** The `additional_info` a dict provides: `{}` when absent, `None` when `None`. */
  function AdditionalInfoOf(data: Item): Option<Option<map<string, Value>>> {
    if "additional_info" !in data then Some(Some(map[]))
    else match data["additional_info"]
      case Null => Some(None)
      case Dict(m) => Some(Some(m))
      case _ => None
  }

  /** Every text field is acceptable, and so are the attached files and the additional info. */
  predicate Validates(data: Item) {
    (forall f :: f in TextFields ==> FieldAccepted(data, f))
    && AttachedFilesOf(ParseAttachedFiles(Get(data, "attached_files", Null)).elems).Some?
    && AdditionalInfoOf(data).Some?
  }

  /** `BidNotice(**data)`: validation of a scraped dict into a notice at crawl time
      `now`.  Keys that are not fields of a notice are ignored, and so is
      `crawled_at`: the notice is always stamped with `now`. */
  function Build(data: Item, now: string): (r: Result<BidNotice, string>)
    ensures r.Ok? ==> forall f :: f in RequiredFields ==>
      f in data && data[f].Str? && f in r.value.text && r.value.text[f] == data[f].s
    ensures (exists f :: f in RequiredFields && (f !in data || !data[f].Str?)) ==> r.Err?
    ensures r.Ok? ==> forall f :: f in r.value.text <==> f in TextFields && TextValue(data, f).Some?
    ensures r.Ok? ==> r.value.crawledAt == now
    ensures r.Ok? ==> forall f :: f in r.value.text ==> Some(r.value.text[f]) == TextValue(data, f)
    ensures r.Ok? ==> Some(r.value.attachedFiles) == AttachedFilesOf(ParseAttachedFiles(Get(data, "attached_files", Null)).elems)
    ensures r.Ok? ==> Some(r.value.additionalInfo) == AdditionalInfoOf(data)
    ensures r.Ok? <==> Validates(data)
  {
    var files := AttachedFilesOf(ParseAttachedFiles(Get(data, "attached_files", Null)).elems);
    var info := AdditionalInfoOf(data);
    if exists f :: f in TextFields && !FieldAccepted(data, f) then Err("validation error: text field")
    else if files.None? then Err("validation error: attached_files")
    else if info.None? then Err("validation error: additional_info")
    else
      var text := map f | f in TextFields && TextValue(data, f).Some? :: TextValue(data, f).value;
      assert forall f :: f in RequiredFields ==> f in TextFields && FieldAccepted(data, f);
      Ok(BidNotice(text, files.value, now, info.value))
  }

  /** The attached-file label of `to_flat_dict`.  `model_dump` always includes the
      size key, so a missing size prints as "None"; the 'N/A' default is never used. */
  function FileLabel(f: AttachedFile): string {
    f.filename + " (" + (if f.size.Some? then f.size.value else "None") + ")"
  }

  function FileLabels(files: seq<AttachedFile>): (r: seq<string>)
    ensures |r| == |files|
    ensures forall i :: 0 <= i < |files| ==> r[i] == FileLabel(files[i])
  {
    seq(|files|, i requires 0 <= i < |files| => FileLabel(files[i]))
  }

  /** The `extra_<key>` entries that replace a non-empty `additional_info`. */
  function ExtraEntries(info: map<string, Value>): (r: Item)
    ensures r.Keys == set k | k in info :: "extra_" + k
    ensures forall k :: k in info ==> r["extra_" + k] == Str(Show(info[k]))
  {
    var r := map k | k in (set k | k in info :: "extra_" + k) :: Str(Show(info[k[6..]]));
    assert forall k :: k in info ==> ("extra_" + k)[6..] == k;
    r
  }

  predicate ExtraPrefixed(k: string) {
    StartsWith(k, "extra_")
  }

  /** The first two characters of `f` are not those of "extra_", "attached_files",
      "crawled_at" or "additional_info". */
  predicate HeadDiffers(f: string) {
    |f| >= 2 &&
    !((f[0] == 'e' && f[1] == 'x') || (f[0] == 'a' && f[1] == 't') ||
      (f[0] == 'c' && f[1] == 'r') || (f[0] == 'a' && f[1] == 'd'))
  }

  /** `f` is not a key `to_flat_dict` adds besides the text fields. */
  predicate NotFlatKey(f: string) {
    !ExtraPrefixed(f) && f != "attached_files" && f != "crawled_at" && f != "additional_info"
  }

  lemma HeadDiffersNoFlatKey(fields: seq<string>)
    requires forall f :: f in fields ==> HeadDiffers(f)
    ensures forall f :: f in fields ==> NotFlatKey(f)
  {
    forall f | f in fields
      ensures NotFlatKey(f)
    {
      assert HeadDiffers(f);
      assert "extra_"[..2] == ['e', 'x'];
      assert "attached_files"[0] == 'a' && "attached_files"[1] == 't';
      assert "crawled_at"[0] == 'c' && "crawled_at"[1] == 'r';
      assert "additional_info"[0] == 'a' && "additional_info"[1] == 'd';
    }
  }

  /** No text field looks like an `extra_` key or is named like one of the
      other entries of the flat dict, so the entries never overwrite each other. */
  lemma FlatKeysDistinct()
    ensures forall f :: f in TextFields ==> !ExtraPrefixed(f)
    ensures !ExtraPrefixed("attached_files") && !ExtraPrefixed("crawled_at") && !ExtraPrefixed("additional_info")
    ensures "attached_files" !in TextFields && "crawled_at" !in TextFields && "additional_info" !in TextFields
    ensures "attached_files" != "crawled_at" && "attached_files" != "additional_info" && "crawled_at" != "additional_info"
  {
    HeadDiffersNoFlatKey(RequiredFields);
    HeadDiffersNoFlatKey(DateFields);
    HeadDiffersNoFlatKey(MethodFields);
    HeadDiffersNoFlatKey(MoneyFields);
    HeadDiffersNoFlatKey(ContactFields);
    HeadDiffersNoFlatKey(OtherFields);
    assert forall f :: f in TextFields ==> NotFlatKey(f);
    assert "attached_files"[0] != "extra_"[0];
    assert "crawled_at"[0] != "extra_"[0];
    assert "additional_info"[0] != "extra_"[0];
    assert "attached_files"[0] != "crawled_at"[0] && "additional_info"[0] != "crawled_at"[0];
    assert "attached_files"[1] != "additional_info"[1];
  }

  /** `data[f'extra_{key}'] = str(value)` for every entry of `info`. */
  function SpreadExtras(data: Item, info: map<string, Value>): (r: Item)
    requires forall k :: k in data ==> !ExtraPrefixed(k)
    ensures forall k :: k in data ==> k in r && r[k] == data[k]
    ensures forall k :: k in info ==> "extra_" + k in r && r["extra_" + k] == Str(Show(info[k]))
    ensures forall k :: k in r ==> k in data || ExtraPrefixed(k)
  {
    ExtraKeysArePrefixed(info);
    data + ExtraEntries(info)
  }

  lemma ExtraKeysArePrefixed(info: map<string, Value>)
    ensures forall k :: k in ExtraEntries(info) ==> ExtraPrefixed(k)
  {
    forall k | k in ExtraEntries(info) ensures ExtraPrefixed(k) {
      var j :| j in info && k == "extra_" + j;
      assert k[..6] == "extra_";
    }
  }

  /** The text fields as `model_dump` gives them, `None` included. */
  function DumpText(n: BidNotice): (r: Item)
    ensures forall f :: f in r <==> f in TextFields
    ensures forall f :: f in r ==> r[f] == OptionalValue(if f in n.text then Some(n.text[f]) else None)
  {
    map f | f in TextFields :: OptionalValue(if f in n.text then Some(n.text[f]) else None)
  }

  /** `to_flat_dict`: every field, with attached files joined into one string,
      `additional_info` spread into `extra_` keys and `crawled_at` as text. */
  function ToFlatDict(n: BidNotice): (r: Item)
    ensures forall f :: f in TextFields ==> f in r && r[f] == OptionalValue(if f in n.text then Some(n.text[f]) else None)
    ensures "attached_files" in r && "crawled_at" in r && r["crawled_at"] == Str(n.crawledAt)
    ensures n.attachedFiles != [] ==> r["attached_files"] == Str(Join("; ", FileLabels(n.attachedFiles)))
    ensures n.attachedFiles == [] ==> r["attached_files"] == List([])
    ensures (n.additionalInfo.Some? && n.additionalInfo.value != map[]) <==> "additional_info" !in r
    ensures n.additionalInfo.Some? ==> forall k :: k in n.additionalInfo.value ==>
              "extra_" + k in r && r["extra_" + k] == Str(Show(n.additionalInfo.value[k]))
  {
    var base := DumpText(n);
    var files := if n.attachedFiles != [] then Str(Join("; ", FileLabels(n.attachedFiles)))
                 else List([]);
    var withFiles := base["attached_files" := files]["crawled_at" := Str(n.crawledAt)];
    FlatKeysDistinct();
    if n.additionalInfo.Some? && n.additionalInfo.value != map[] then
      SpreadExtras(withFiles, n.additionalInfo.value)
    else
      withFiles["additional_info" := if n.additionalInfo.Some? then Dict(map[]) else Null]
  }

  /** The notices collected in one crawl session. */
  class NoticeList {
    var notices: seq<BidNotice>
    var totalCount: int

    predicate Valid()
      reads this
    {
      totalCount == |notices|
    }

    constructor ()
      ensures Valid() && notices == []
    {
      notices := [];
      totalCount := 0;
    }

    /** Appends a notice and recounts. */
    method AddNotice(notice: BidNotice)
      modifies this
      ensures notices == old(notices) + [notice]
      ensures Valid()
    {
      notices := notices + [notice];
      totalCount := |notices|;
    }

    /** `notices.pop()` done directly on the list: the last notice goes and
        `totalCount` is left as it was. */
    method PopLast() returns (last: BidNotice)
      requires notices != []
      modifies this
      ensures old(notices) == notices + [last]
      ensures totalCount == old(totalCount)
    {
      last := notices[|notices| - 1];
      notices := notices[..|notices| - 1];
    }
  }
}
