/** The detail-page parser: label/value extraction from the page's tables,
    cleaning of labels and values, the date/time pattern of the opening date,
    per-field plausibility checks, fuzzy label lookup, the mapping onto notice
    fields and the attached-file list. */
module DetailParser {
  import opened Wrappers
  import opened Text
  import opened Values
  import Schema

  /** `_clean_text`: whitespace runs become one space, then leading and trailing
      runs of ':' and whitespace are cut off. */
  function CleanText(text: string): (r: string)
    ensures r == [] || (!InClass(r[0], ColonOrBlank) && !InClass(r[|r| - 1], ColonOrBlank))
    ensures SingleSpaced(r)
  {
    if text == "" then ""
    else
      var c := CollapseSpaces(text);
      StripSingleSpaced(c);
      var s := Strip(c);
      var e := TrimEnd(s, ColonOrBlank);
      TrimEndPrefix(s, ColonOrBlank);
      SingleSpacedSlice(s, 0, |e|);
      TrimStartSuffix(e, ColonOrBlank);
      SingleSpacedSlice(e, |e| - |TrimStart(e, ColonOrBlank)|, |e|);
      TrimStart(e, ColonOrBlank)
  }

  /** The texts cleaning leaves alone are exactly the single-spaced ones that
      neither start nor end with ':' or whitespace. */
  lemma CleanTextFixed(t: string)
    ensures CleanText(t) == t <==>
      SingleSpaced(t) && (t == [] || (!InClass(t[0], ColonOrBlank) && !InClass(t[|t| - 1], ColonOrBlank)))
  {
    if t != [] && SingleSpaced(t) && !InClass(t[0], ColonOrBlank) && !InClass(t[|t| - 1], ColonOrBlank) {
      CollapseSingleSpaced(t);
      TrimStartNoop(t, Blank);
      TrimEndNoop(t, Blank);
      TrimEndNoop(t, ColonOrBlank);
      TrimStartNoop(t, ColonOrBlank);
    }
  }

  // ---------------------------------------------------------------------
  // Date and time patterns

  predicate DigitsAt(s: string, i: nat, n: nat) {
    i + n <= |s| && forall k :: i <= k < i + n ==> IsDigit(s[k])
  }

  predicate DateSeparator(c: char) {
    c == '/' || c == '-'
  }

  /** `\d{4}[/-]\d{2}[/-]\d{2}` matches at `i`. */
  predicate DateAt(s: string, i: nat) {
    i + 10 <= |s| && DigitsAt(s, i, 4) && DateSeparator(s[i + 4]) && DigitsAt(s, i + 5, 2)
    && DateSeparator(s[i + 7]) && DigitsAt(s, i + 8, 2)
  }

  /** `\d{2}:\d{2}` matches at `i`. */
  predicate TimeAt(s: string, i: nat) {
    i + 5 <= |s| && DigitsAt(s, i, 2) && s[i + 2] == ':' && DigitsAt(s, i + 3, 2)
  }

  /** The end of the whitespace run starting at `i`. */
  function SkipSpaces(s: string, i: nat): (j: nat)
    requires i <= |s|
    ensures i <= j <= |s|
    ensures forall k :: i <= k < j ==> IsSpace(s[k])
    ensures j == |s| || !IsSpace(s[j])
    decreases |s| - i
  {
    if i < |s| && IsSpace(s[i]) then SkipSpaces(s, i + 1) else i
  }

  /** `(date)\s*(time)` matches at `i`.  A time starts with a digit, so the
      greedy `\s*` never has to give whitespace back. */
  predicate DateTimeAt(s: string, i: nat) {
    DateAt(s, i) && TimeAt(s, SkipSpaces(s, i + 10))
  }

  /** `re.search`: the leftmost position from `i` on where `p` holds. */
  function Search(s: string, i: nat, p: nat -> bool): (r: Option<nat>)
    requires i <= |s|
    ensures r.Some? ==> i <= r.value <= |s| && p(r.value)
    ensures r.Some? ==> forall k :: i <= k < r.value ==> !p(k)
    ensures r.None? ==> forall k :: i <= k <= |s| ==> !p(k)
    decreases |s| - i
  {
    if p(i) then Some(i)
    else if i == |s| then None
    else Search(s, i + 1, p)
  }

  function FindDateTime(s: string): (r: Option<nat>)
    ensures r.Some? ==> DateTimeAt(s, r.value)
    ensures r.None? <==> forall k :: 0 <= k <= |s| ==> !DateTimeAt(s, k)
  {
    var p := (k: nat) => DateTimeAt(s, k);
    assert forall k: nat :: p(k) == DateTimeAt(s, k);
    Search(s, 0, p)
  }

  function FindDate(s: string): (r: Option<nat>)
    ensures r.Some? ==> DateAt(s, r.value)
    ensures r.None? <==> forall k :: 0 <= k <= |s| ==> !DateAt(s, k)
  {
    var p := (k: nat) => DateAt(s, k);
    assert forall k: nat :: p(k) == DateAt(s, k);
    Search(s, 0, p)
  }

  function FindTime(s: string): (r: Option<nat>)
    ensures r.Some? ==> TimeAt(s, r.value)
    ensures r.None? <==> forall k :: 0 <= k <= |s| ==> !TimeAt(s, k)
  {
    var p := (k: nat) => TimeAt(s, k);
    assert forall k: nat :: p(k) == TimeAt(s, k);
    Search(s, 0, p)
  }

  /** "YYYY/MM/DD HH:MM": a date, one space, a time. */
  predicate DateTimeShaped(r: string) {
    |r| == 16 && DateAt(r, 0) && r[10] == ' ' && TimeAt(r, 11)
  }

  /** `_clean_opening_date`: the first date directly followed (after optional
      whitespace) by a time, as "date time"; else the first date and the first
      time found anywhere; else the text unchanged. */
  function CleanOpeningDate(text: string): (r: string)
    ensures (FindDate(text).None? || FindTime(text).None?) ==> r == text
    ensures FindDate(text).Some? && FindTime(text).Some? ==> DateTimeShaped(r)
    ensures FindDateTime(text).Some? ==>
              r == JoinDateTime(text, FindDateTime(text).value, SkipSpaces(text, FindDateTime(text).value + 10))
    ensures FindDateTime(text).None? && FindDate(text).Some? && FindTime(text).Some? ==>
              r == JoinDateTime(text, FindDate(text).value, FindTime(text).value)
  {
    if text == "" then ""
    else match FindDateTime(text)
      case Some(i) =>
        var j := SkipSpaces(text, i + 10);
        assert DateAt(text, i) && TimeAt(text, j);
        assert FindDate(text).Some? && FindTime(text).Some?;
        JoinDateTime(text, i, j)
      case None =>
        match (FindDate(text), FindTime(text))
        case (Some(d), Some(t)) => JoinDateTime(text, d, t)
        case _ => text
  }

  /** `f"{date} {time}"` from the date at `d` and the time at `t`. */
  function JoinDateTime(text: string, d: nat, t: nat): (r: string)
    requires DateAt(text, d) && TimeAt(text, t)
    ensures DateTimeShaped(r)
    ensures r[..10] == text[d..d + 10] && r[11..] == text[t..t + 5]
  {
    PieceShape(text, d, t);
    Piece(text, d, 10) + " " + Piece(text, t, 5)
  }

  /** `text[i..i + n]`. */
  function Piece(text: string, i: nat, n: nat): (p: string)
    requires i + n <= |text|
    ensures |p| == n && forall k :: 0 <= k < n ==> p[k] == text[i + k]
  {
    text[i..i + n]
  }

  lemma PieceShape(text: string, d: nat, t: nat)
    requires DateAt(text, d) && TimeAt(text, t)
    ensures DateTimeShaped(Piece(text, d, 10) + " " + Piece(text, t, 5))
  {
    var r := Piece(text, d, 10) + " " + Piece(text, t, 5);
    assert forall k :: 0 <= k < 10 ==> r[k] == text[d + k];
    assert forall k :: 11 <= k < 16 ==> r[k] == text[t + k - 11];
  }

  /** A cleaned date-time is cleaned to itself. */
  lemma CleanOpeningDateIdempotent(r: string)
    requires DateTimeShaped(r)
    ensures CleanOpeningDate(r) == r
  {
    assert !IsSpace(r[11]);
    assert SkipSpaces(r, 10) == 11 by {
      assert SkipSpaces(r, 11) == 11;
    }
    assert DateTimeAt(r, 0);
    assert FindDateTime(r) == Some(0);
    assert JoinDateTime(r, 0, 11) == r;
  }

  /** A text without '/' or '-' holds no date and is returned unchanged, as a
      date written with Korean unit characters is. */
  lemma NoSeparatorUnchanged(text: string)
    requires '/' !in text && '-' !in text
    ensures CleanOpeningDate(text) == text
  {
    forall k | 0 <= k <= |text| ensures !DateAt(text, k) {
      if k + 10 <= |text| {
        assert text[k + 4] in text;
      }
    }
  }

  lemma KoreanDateKept()
    ensures CleanOpeningDate("2024년 01월 01일 10:00") == "2024년 01월 01일 10:00"
  {
    NoSeparatorUnchanged("2024년 01월 01일 10:00");
  }

  // ---------------------------------------------------------------------
  // Field plausibility

  /** The fields a date is allowed in. */
  const DateFieldNames: seq<string> := ["announcement_date", "deadline_date", "bid_date", "opening_date",
                                        "delivery_deadline", "bid_bond_deadline", "participation_deadline"]

  predicate HasDigit(s: string) {
    exists k :: 0 <= k < |s| && IsDigit(s[k])
  }

  /** `_validate_field_value`: whether `value` is plausible for `field`. */
  function ValidateFieldValue(field: string, value: Option<string>): (ok: bool)
    ensures value.None? ==> ok
    ensures value.Some? && field == "opening_date" && |value.value| > 50 ==> !ok
    ensures value.Some? && field !in DateFieldNames && FindDate(value.value).Some? ==> !ok
    ensures value.Some? && (field == "phone_number" || field == "fax_number") && !HasDigit(value.value) ==> !ok
    ensures value.Some? && field == "email" && '@' !in value.value ==> !ok
    ensures value.Some? && |Strip(value.value)| < 2 ==> !ok
    ensures value.Some? && field == "status" && (Contains(value.value, "게시미게시") || Contains(value.value, "검색")) ==> !ok
    ensures value.Some? && !ok ==>
      (field == "opening_date" && |value.value| > 50)
      || (field !in DateFieldNames && FindDate(value.value).Some?)
      || ((field == "phone_number" || field == "fax_number") && !HasDigit(value.value))
      || (field == "email" && '@' !in value.value)
      || |Strip(value.value)| < 2
      || (field == "status" && (Contains(value.value, "게시미게시") || Contains(value.value, "검색")))
  {
    if value.None? then true
    else
      var v := value.value;
      if field == "opening_date" && |v| > 50 then false
      else if field !in DateFieldNames && FindDate(v).Some? then false
      else if field == "phone_number" && !HasDigit(v) then false
      else if field == "fax_number" && !HasDigit(v) then false
      else if field == "email" && '@' !in v then false
      else if |Strip(v)| < 2 then false
      else if field == "status" && (Contains(v, "게시미게시") || Contains(v, "검색")) then false
      else true
  }

  // ---------------------------------------------------------------------
  // Label tables

  /** The label -> value dict of a detail page, in insertion order. */
  type Table = seq<(string, string)>

  predicate HasKey(t: Table, k: string) {
    exists i :: 0 <= i < |t| && t[i].0 == k
  }

  predicate UniqueKeys(t: Table) {
    forall i, j :: 0 <= i < j < |t| ==> t[i].0 != t[j].0
  }

  /** `t[k]` */
  function Lookup(t: Table, k: string): (r: Option<string>)
    ensures r.Some? <==> HasKey(t, k)
    ensures r.Some? ==> exists i :: 0 <= i < |t| && t[i] == (k, r.value)
  {
    if t == [] then None
    else if t[0].0 == k then Some(t[0].1)
    else
      var r := Lookup(t[1..], k);
      assert HasKey(t[1..], k) ==> HasKey(t, k) by {
        if HasKey(t[1..], k) {
          var i :| 0 <= i < |t[1..]| && t[1..][i].0 == k;
          assert t[i + 1].0 == k;
        }
      }
      assert HasKey(t, k) ==> HasKey(t[1..], k) by {
        if HasKey(t, k) {
          var i :| 0 <= i < |t| && t[i].0 == k;
          assert i > 0 && t[1..][i - 1].0 == k;
        }
      }
      if r.Some? then
        var i :| 0 <= i < |t[1..]| && t[1..][i] == (k, r.value);
        assert t[i + 1] == (k, r.value);
        r
      else r
  }

  /** In a dict the value of a key is its only entry's value. */
  lemma LookupUnique(t: Table, i: nat)
    requires UniqueKeys(t) && i < |t|
    ensures Lookup(t, t[i].0) == Some(t[i].1)
  {
    var r := Lookup(t, t[i].0);
    var j :| 0 <= j < |t| && t[j] == (t[i].0, r.value);
    assert i == j;
  }

  /** `data[k] = v`: an existing key keeps its place and takes the new value,
      a new key goes at the end. */
  function Put(t: Table, k: string, v: string): (r: Table)
    ensures HasKey(t, k) ==> |r| == |t|
    ensures !HasKey(t, k) ==> r == t + [(k, v)]
    ensures forall i :: 0 <= i < |t| ==> r[i] == (if t[i].0 == k then (k, v) else t[i])
  {
    if HasKey(t, k) then seq(|t|, i requires 0 <= i < |t| => if t[i].0 == k then (k, v) else t[i])
    else t + [(k, v)]
  }

  /** `if label not in data: data[label] = value` */
  function PutNew(t: Table, k: string, v: string): Table {
    if HasKey(t, k) then t else t + [(k, v)]
  }

  lemma PutKeepsUnique(t: Table, k: string, v: string)
    requires UniqueKeys(t)
    ensures UniqueKeys(Put(t, k, v)) && UniqueKeys(PutNew(t, k, v))
    ensures Lookup(Put(t, k, v), k) == Some(v)
  {
    var r := Put(t, k, v);
    if HasKey(t, k) {
      var i :| 0 <= i < |t| && t[i].0 == k;
      assert r[i] == (k, v);
      LookupUnique(r, i);
    } else {
      LookupUnique(r, |t|);
    }
  }

  /** Every key of `t` is still there in `u` with the same value. */
  ghost predicate Keeps(t: Table, u: Table) {
    forall k :: HasKey(t, k) ==> Lookup(u, k) == Lookup(t, k)
  }

  lemma PutNewKeeps(t: Table, k: string, v: string)
    ensures Keeps(t, PutNew(t, k, v))
  {
    forall x | HasKey(t, x) ensures Lookup(PutNew(t, k, v), x) == Lookup(t, x) {
      if !HasKey(t, k) { LookupPrefix(t, [(k, v)], x); }
    }
  }

  lemma {:induction false} LookupPrefix(t: Table, u: Table, k: string)
    requires HasKey(t, k)
    ensures Lookup(t + u, k) == Lookup(t, k)
  {
    if t[0].0 != k {
      assert (t + u)[1..] == t[1..] + u;
      assert HasKey(t[1..], k) by {
        var i :| 0 <= i < |t| && t[i].0 == k;
        assert t[1..][i - 1].0 == k;
      }
      LookupPrefix(t[1..], u, k);
    }
  }

  lemma KeepsTransitive(t: Table, u: Table, w: Table)
    requires Keeps(t, u) && Keeps(u, w)
    ensures Keeps(t, w)
  {
    forall k | HasKey(t, k) ensures Lookup(w, k) == Lookup(t, k) {
      assert Lookup(u, k).Some?;
    }
  }

  // ---------------------------------------------------------------------
  // Fuzzy label lookup

  /** `s.rstrip(':')` */
  function TrimColons(s: string): (r: string)
    ensures r == [] || r[|r| - 1] != ':'
  {
    if s != [] && s[|s| - 1] == ':' then TrimColons(s[..|s| - 1]) else s
  }

  /** `key.strip().rstrip(':').strip()` */
  function NormalizeLabel(s: string): string {
    Strip(TrimColons(Strip(s)))
  }

  /** Labels that must never be matched fuzzily. */
  const Blacklist: seq<string> := ["공고처리상태", "검색", "정렬", "보기"]

  predicate Blacklisted(key: string, blacklist: seq<string>) {
    blacklist != [] && exists b :: b in blacklist && Contains(NormalizeLabel(key), b)
  }

  /** One of the normalised label and key contains the other. */
  predicate FuzzyMatch(key: string, lbl: string) {
    Contains(NormalizeLabel(key), NormalizeLabel(lbl)) || Contains(NormalizeLabel(lbl), NormalizeLabel(key))
  }

  predicate FuzzyHit(t: Table, j: nat, lbl: string, blacklist: seq<string>)
    requires j < |t|
  {
    !Blacklisted(t[j].0, blacklist) && FuzzyMatch(t[j].0, lbl)
  }

  /** The value of the first entry that matches `lbl` fuzzily and is not blacklisted. */
  function FuzzyScan(t: Table, lbl: string, blacklist: seq<string>, from: nat): (r: Option<string>)
    requires from <= |t|
    ensures r.None? <==> forall j :: from <= j < |t| ==> !FuzzyHit(t, j, lbl, blacklist)
    ensures r.Some? ==> exists j :: from <= j < |t| && FuzzyHit(t, j, lbl, blacklist) && t[j].1 == r.value
                                   && forall k :: from <= k < j ==> !FuzzyHit(t, k, lbl, blacklist)
    decreases |t| - from
  {
    if from == |t| then None
    else if FuzzyHit(t, from, lbl, blacklist) then Some(t[from].1)
    else FuzzyScan(t, lbl, blacklist, from + 1)
  }

  /** Nothing in `t` answers `lbl`: no exact key and no fuzzy hit. */
  predicate NoAnswer(t: Table, lbl: string, blacklist: seq<string>) {
    !HasKey(t, lbl) && forall j :: 0 <= j < |t| ==> !FuzzyHit(t, j, lbl, blacklist)
  }

  /** Label `i` is the first label anything in `t` answers, and `r` is its answer:
      the exact key's value, otherwise the first fuzzy hit. */
  predicate AnswersFirst(t: Table, labels: seq<string>, blacklist: seq<string>, i: nat, r: Option<string>)
    requires i < |labels|
  {
    (forall k :: 0 <= k < i ==> NoAnswer(t, labels[k], blacklist))
    && r == (if HasKey(t, labels[i]) then Lookup(t, labels[i]) else FuzzyScan(t, labels[i], blacklist, 0))
  }

  /** `_find_value_by_labels`: labels are tried in order; an exact key wins
      without any blacklist check, otherwise the first non-blacklisted fuzzy match. */
  function FindValueByLabels(t: Table, labels: seq<string>, blacklist: seq<string>): (r: Option<string>)
    ensures r.None? <==> forall i :: 0 <= i < |labels| ==> NoAnswer(t, labels[i], blacklist)
    ensures labels != [] && HasKey(t, labels[0]) ==> r == Lookup(t, labels[0])
    ensures r.Some? ==> exists i :: 0 <= i < |labels| && AnswersFirst(t, labels, blacklist, i, r)
    ensures r.Some? ==> exists j :: 0 <= j < |t| && t[j].1 == r.value
                                   && (t[j].0 in labels || !Blacklisted(t[j].0, blacklist))
  {
    if labels == [] then None
    else if HasKey(t, labels[0]) then
      assert AnswersFirst(t, labels, blacklist, 0, Lookup(t, labels[0]));
      Lookup(t, labels[0])
    else match FuzzyScan(t, labels[0], blacklist, 0)
      case Some(v) =>
        assert AnswersFirst(t, labels, blacklist, 0, Some(v));
        Some(v)
      case None =>
        var r := FindValueByLabels(t, labels[1..], blacklist);
        assert forall i :: 1 <= i < |labels| ==> labels[i] == labels[1..][i - 1];
        assert forall x :: x in labels[1..] ==> x in labels;
        assert NoAnswer(t, labels[0], blacklist);
        assert r.Some? ==> exists i :: 0 <= i < |labels| && AnswersFirst(t, labels, blacklist, i, r) by {
          if r.Some? {
            var i :| 0 <= i < |labels[1..]| && AnswersFirst(t, labels[1..], blacklist, i, r);
            forall k | 0 <= k < i + 1 ensures NoAnswer(t, labels[k], blacklist) {
              if k > 0 { assert labels[k] == labels[1..][k - 1]; }
            }
            assert AnswersFirst(t, labels, blacklist, i + 1, r);
          }
        }
        r
  }

  // ---------------------------------------------------------------------
  // Mapping onto notice fields

  /** The notice fields filled from the detail page, each with the labels
      tried for it, most specific first. */
  const FieldMappings: seq<(string, seq<string>)> := [
    ("classification", ["업무분류", "분류", "물품분류", "용역분류", "공고분류"]),
    ("document_number", ["문서번호"]),
    ("is_emergency", ["긴급입찰여부"]),
    ("notice_type", ["공고종류"]),
    ("process_type", ["공고처리구분"]),
    ("bid_system", ["입찰방식"]),
    ("is_re_bid", ["재입찰여부"]),
    ("demanding_agency", ["수요기관", "발주기관"]),
    ("opening_location", ["개찰장소"]),
    ("is_field_briefing_required", ["현장설명", "현장설명회", "현장설명여부"]),
    ("bid_method", ["계약방법", "입찰방법"]),
    ("selection_method", ["낙찰방법", "낙찰자결정방법"]),
    ("budget_amount", ["배정예산액", "배정예산", "예산금액", "추정금액"]),
    ("base_price", ["기준금액", "기초금액", "시작가격", "예정가격"]),
    ("estimated_price", ["추정가격", "예정가격"]),
    ("pre_qualification", ["사전규격", "사전심사", "적격심사대상여부"]),
    ("qualification_requirements", ["지역제한", "업종제한", "자격요건"]),
    ("guarantee_rate", ["보증금율", "계약보증금율"]),
    ("bid_bond", ["입찰보증금", "입찰보증"]),
    ("contract_bond", ["계약보증금", "계약이행보증", "이행보증금"]),
    ("payment_terms", ["대금지급방법", "계약금지급", "대금지급조건"]),
    ("delivery_location", ["개찰장소", "납품장소", "계약장소", "이행장소"]),
    ("delivery_deadline", ["납품기한", "이행기간", "납품기간"]),
    ("contract_period", ["계약기간"]),
    ("contact_person", ["담당자"]),
    ("contact_department", ["담당부서", "부서", "소속"]),
    ("phone_number", ["전화번호", "연락처 전화번호"]),
    ("fax_number", ["팩스", "FAX", "팩스번호"]),
    ("email", ["이메일", "E-mail", "전자우편"]),
    ("bid_date", ["입찰서접수시작일시", "입찰일시", "입찰개시일시"]),
    ("opening_date", ["개찰일시", "개찰일"]),
    ("bid_bond_deadline", ["입찰보증서접수마감일시"]),
    ("participation_deadline", ["입찰참가자격등록마감일시", "참가자격등록마감일시"]),
    ("specifications", ["세부규격", "과업내용", "규격", "내역"]),
    ("evaluation_criteria", ["낙찰방법", "평가기준", "낙찰기준", "낙찰자결정방법", "적격심사표"]),
    ("eligible_entities", ["지사/지점허용여부", "참가자격", "적격업체"]),
    ("notes", ["개찰및낙찰-비고", "비고", "특이사항", "참고사항"]),
    ("status", ["상태", "진행상태", "진행현황"])
  ]

  /** The value one field receives: the label lookup, cleaned when it is the
      opening date, kept only when non-empty and plausible. */
  function MappedValue(raw: Table, field: string, labels: seq<string>): (r: Option<string>)
    ensures r.Some? ==> r.value != "" && ValidateFieldValue(field, r)
    ensures r.Some? && field != "opening_date" ==> r == FindValueByLabels(raw, labels, Blacklist)
  {
    match FindValueByLabels(raw, labels, Blacklist)
    case None => None
    case Some(found) =>
      if found == "" then None
      else
        var v := if field == "opening_date" then CleanOpeningDate(found) else found;
        if ValidateFieldValue(field, Some(v)) then
          assert |Strip(v)| >= 2;
          Some(v)
        else None
  }

  /** The mapped dict after the first `|ms|` mappings. */
  function Mapped(raw: Table, ms: seq<(string, seq<string>)>): map<string, string>
  {
    if ms == [] then map[]
    else
      var m := Mapped(raw, ms[..|ms| - 1]);
      var last := ms[|ms| - 1];
      match MappedValue(raw, last.0, last.1)
      case Some(v) => m[last.0 := v]
      case None => m
  }

  /** Every mapped field is one of the mapping's fields and carries a
      non-empty value that passes the field's plausibility check. */
  lemma {:induction false} MappedFieldsValid(raw: Table, ms: seq<(string, seq<string>)>)
    ensures forall f :: f in Mapped(raw, ms) ==>
      (exists i :: 0 <= i < |ms| && ms[i].0 == f)
      && Mapped(raw, ms)[f] != "" && ValidateFieldValue(f, Some(Mapped(raw, ms)[f]))
  {
    if ms != [] {
      var init := ms[..|ms| - 1];
      MappedFieldsValid(raw, init);
      forall f | f in Mapped(raw, ms) ensures exists i :: 0 <= i < |ms| && ms[i].0 == f {
        if f in Mapped(raw, init) && f != ms[|ms| - 1].0 {
          var i :| 0 <= i < |init| && init[i].0 == f;
          assert ms[i].0 == f;
        }
      }
    }
  }

  /** A field whose lookup finds nothing is absent from the mapped dict. */
  lemma {:induction false} MappedNeedsAnswer(raw: Table, ms: seq<(string, seq<string>)>, f: string)
    requires forall i :: 0 <= i < |ms| && ms[i].0 == f ==> FindValueByLabels(raw, ms[i].1, Blacklist).None?
    ensures f !in Mapped(raw, ms)
  {
    if ms != [] {
      var init := ms[..|ms| - 1];
      assert forall i :: 0 <= i < |init| ==> init[i] == ms[i];
      MappedNeedsAnswer(raw, init, f);
    }
  }

  /** `_map_to_schema` */
  method MapToSchema(raw: Table) returns (mapped: map<string, string>)
    ensures mapped == Mapped(raw, FieldMappings)
  {
    mapped := MapFields(raw, FieldMappings);
  }

  /** The loop of `_map_to_schema` over any list of mappings. */
  method MapFields(raw: Table, mappings: seq<(string, seq<string>)>) returns (mapped: map<string, string>)
    ensures mapped == Mapped(raw, mappings)
  {
    mapped := map[];
    for i := 0 to |mappings|
      invariant mapped == Mapped(raw, mappings[..i])
    {
      assert mappings[..i + 1][..i] == mappings[..i];
      var field := mappings[i].0;
      var value := MapOne(raw, field, mappings[i].1);
      if value.Some? {
        mapped := mapped[field := value.value];
      }
    }
    assert mappings[..|mappings|] == mappings;
  }

  /** One step of `_map_to_schema`: look the labels up, clean an opening date,
      keep a non-empty plausible value. */
  method MapOne(raw: Table, field: string, labels: seq<string>) returns (r: Option<string>)
    ensures r == MappedValue(raw, field, labels)
  {
    r := None;
    var value := FindValueByLabels(raw, labels, Blacklist);
    if value.Some? && value.value != "" {
      var v := value.value;
      if field == "opening_date" {
        v := CleanOpeningDate(v);
      }
      if ValidateFieldValue(field, Some(v)) {
        r := Some(v);
      }
    }
  }

  // ---------------------------------------------------------------------
  // Extraction from the page's tables

  /** A TH of the page: whether it sits in the search filter, its text and the
      text of the TD right after it, if any.  Reading a `BrokenHeader` raises. */
  datatype HeaderCell = HeaderCell(inSearchFilter: bool, text: string, followingTd: Option<string>) | BrokenHeader

  /** A TH or TD cell of a table row. */
  datatype GridCell = GridCell(tag: string, text: string)

  datatype GridRow = GridRow(cells: seq<GridCell>) | BrokenRow

  /** A table; `inSearchFilter` is `None` when asking raised. */
  datatype GridTable = GridTable(inSearchFilter: Option<bool>, rows: seq<GridRow>)

  /** A `.label` element with the text of the value element found beside it. */
  datatype LabelElement = LabelElement(inSearchFilter: bool, text: string, valueText: Option<string>) | BrokenLabel

  /** What the parser sees of the detail context. */
  datatype DetailView = DetailView(headers: seq<HeaderCell>, tables: seq<GridTable>, labels: seq<LabelElement>)

  /** Strategy 1 for one TH: a cleaned label with a non-empty cleaned TD value is
      stored, overwriting an earlier value. */
  function HeaderStep(t: Table, h: HeaderCell): Table {
    if h.BrokenHeader? || h.inSearchFilter then t
    else
      var lbl := CleanText(h.text);
      if lbl == "" || h.followingTd.None? || h.followingTd.value == "" then t
      else
        var value := CleanText(h.followingTd.value);
        if value == "" then t else Put(t, lbl, value)
  }

  function Strategy1(t: Table, hs: seq<HeaderCell>): Table {
    if hs == [] then t else HeaderStep(Strategy1(t, hs[..|hs| - 1]), hs[|hs| - 1])
  }

  /** A TH immediately followed by a TD adds its pair unless the label is taken. */
  function AddPair(t: Table, lbl: GridCell, value: GridCell): Table {
    var l := CleanText(lbl.text);
    var v := CleanText(value.text);
    if l != "" && v != "" then PutNew(t, l, v) else t
  }

  predicate PairStart(cells: seq<GridCell>, i: nat)
    requires i + 1 < |cells|
  {
    cells[i].tag == "TH" && cells[i + 1].tag == "TD"
  }

  /** The row-pairing loop from position `i`: a TH/TD pair consumes two cells,
      anything else one. */
  function PairFrom(t: Table, cells: seq<GridCell>, i: nat): Table
    decreases |cells| - i
  {
    if i + 1 >= |cells| then t
    else if PairStart(cells, i) then PairFrom(AddPair(t, cells[i], cells[i + 1]), cells, i + 2)
    else PairFrom(t, cells, i + 1)
  }

  lemma {:induction false} PairFromKeeps(t: Table, cells: seq<GridCell>, i: nat)
    ensures Keeps(t, PairFrom(t, cells, i))
    decreases |cells| - i
  {
    if i + 1 < |cells| {
      if PairStart(cells, i) {
        var u := AddPair(t, cells[i], cells[i + 1]);
        var l, v := CleanText(cells[i].text), CleanText(cells[i + 1].text);
        if l != "" && v != "" { PutNewKeeps(t, l, v); }
        PairFromKeeps(u, cells, i + 2);
        KeepsTransitive(t, u, PairFrom(u, cells, i + 2));
      } else {
        PairFromKeeps(t, cells, i + 1);
      }
    }
  }

  lemma {:induction false} PairFromUnique(t: Table, cells: seq<GridCell>, i: nat)
    requires UniqueKeys(t)
    ensures UniqueKeys(PairFrom(t, cells, i))
    decreases |cells| - i
  {
    if i + 1 < |cells| {
      if PairStart(cells, i) {
        var l, v := CleanText(cells[i].text), CleanText(cells[i + 1].text);
        if l != "" && v != "" { PutKeepsUnique(t, l, v); }
        PairFromUnique(AddPair(t, cells[i], cells[i + 1]), cells, i + 2);
      } else {
        PairFromUnique(t, cells, i + 1);
      }
    }
  }

  /** The pairing loop over one row's cells. */
  method PairRow(t: Table, cells: seq<GridCell>) returns (u: Table)
    ensures u == PairFrom(t, cells, 0)
  {
    u := t;
    if |cells| >= 2 {
      var i := 0;
      while i < |cells| - 1
        invariant 0 <= i <= |cells|
        invariant PairFrom(u, cells, i) == PairFrom(t, cells, 0)
        decreases |cells| - i
      {
        if cells[i].tag == "TH" && cells[i + 1].tag == "TD" {
          ghost var before := u;
          var lbl := CleanText(cells[i].text);
          var value := CleanText(cells[i + 1].text);
          if lbl != "" && value != "" {
            if !HasKey(u, lbl) {
              u := u + [(lbl, value)];
            }
          }
          assert u == AddPair(before, cells[i], cells[i + 1]);
          assert PairFrom(before, cells, i) == PairFrom(u, cells, i + 2);
          i := i + 2;
        } else {
          assert PairFrom(u, cells, i) == PairFrom(u, cells, i + 1);
          i := i + 1;
        }
      }
    }
  }

  function RowStep(t: Table, row: GridRow): Table {
    if row.BrokenRow? then t else PairFrom(t, row.cells, 0)
  }

  function RowsFold(t: Table, rows: seq<GridRow>): Table {
    if rows == [] then t else RowStep(RowsFold(t, rows[..|rows| - 1]), rows[|rows| - 1])
  }

  function TableStep(t: Table, table: GridTable): Table {
    if table.inSearchFilter == Some(true) then t else RowsFold(t, table.rows)
  }

  function Strategy2(t: Table, tables: seq<GridTable>): Table {
    if tables == [] then t else TableStep(Strategy2(t, tables[..|tables| - 1]), tables[|tables| - 1])
  }

  /** Strategy 3 for one label element: added only when the label is new. */
  function LabelStep(t: Table, e: LabelElement): Table {
    if e.BrokenLabel? || e.inSearchFilter then t
    else
      var lbl := CleanText(e.text);
      if lbl == "" || e.valueText.None? then t
      else
        var value := CleanText(e.valueText.value);
        if value != "" then PutNew(t, lbl, value) else t
  }

  function Strategy3(t: Table, es: seq<LabelElement>): Table {
    if es == [] then t else LabelStep(Strategy3(t, es[..|es| - 1]), es[|es| - 1])
  }

  /** `_extract_all_table_data`: the three strategies in turn. */
  function AllTableData(view: DetailView): Table {
    Strategy3(Strategy2(Strategy1([], view.headers), view.tables), view.labels)
  }

  /** Strategies 2 and 3 never change a label an earlier strategy stored. */
  lemma {:induction false} LaterStrategiesKeep(t: Table, tables: seq<GridTable>, es: seq<LabelElement>)
    ensures Keeps(t, Strategy3(Strategy2(t, tables), es))
  {
    Strategy2Keeps(t, tables);
    Strategy3Keeps(Strategy2(t, tables), es);
    KeepsTransitive(t, Strategy2(t, tables), Strategy3(Strategy2(t, tables), es));
  }

  lemma {:induction false} RowsFoldKeeps(t: Table, rows: seq<GridRow>)
    ensures Keeps(t, RowsFold(t, rows))
  {
    if rows != [] {
      var u := RowsFold(t, rows[..|rows| - 1]);
      RowsFoldKeeps(t, rows[..|rows| - 1]);
      if !rows[|rows| - 1].BrokenRow? { PairFromKeeps(u, rows[|rows| - 1].cells, 0); }
      KeepsTransitive(t, u, RowsFold(t, rows));
    }
  }

  lemma {:induction false} Strategy2Keeps(t: Table, tables: seq<GridTable>)
    ensures Keeps(t, Strategy2(t, tables))
  {
    if tables != [] {
      var u := Strategy2(t, tables[..|tables| - 1]);
      Strategy2Keeps(t, tables[..|tables| - 1]);
      RowsFoldKeeps(u, tables[|tables| - 1].rows);
      KeepsTransitive(t, u, Strategy2(t, tables));
    }
  }

  lemma {:induction false} Strategy3Keeps(t: Table, es: seq<LabelElement>)
    ensures Keeps(t, Strategy3(t, es))
  {
    if es != [] {
      var u := Strategy3(t, es[..|es| - 1]);
      Strategy3Keeps(t, es[..|es| - 1]);
      var e := es[|es| - 1];
      if !e.BrokenLabel? && !e.inSearchFilter && CleanText(e.text) != "" && e.valueText.Some? {
        PutNewKeeps(u, CleanText(e.text), CleanText(e.valueText.value));
      }
      KeepsTransitive(t, u, Strategy3(t, es));
    }
  }

  /** The extracted table is a dict: every label occurs once. */
  lemma {:induction false} AllTableDataUnique(view: DetailView)
    ensures UniqueKeys(AllTableData(view))
  {
    Strategy1Unique(view.headers);
    Strategy2Unique(Strategy1([], view.headers), view.tables);
    Strategy3Unique(Strategy2(Strategy1([], view.headers), view.tables), view.labels);
  }

  lemma {:induction false} Strategy1Unique(hs: seq<HeaderCell>)
    ensures UniqueKeys(Strategy1([], hs))
  {
    if hs != [] {
      Strategy1Unique(hs[..|hs| - 1]);
      var h := hs[|hs| - 1];
      if !h.BrokenHeader? && !h.inSearchFilter && h.followingTd.Some? {
        PutKeepsUnique(Strategy1([], hs[..|hs| - 1]), CleanText(h.text), CleanText(h.followingTd.value));
      }
    }
  }

  lemma {:induction false} RowsFoldUnique(t: Table, rows: seq<GridRow>)
    requires UniqueKeys(t)
    ensures UniqueKeys(RowsFold(t, rows))
  {
    if rows != [] {
      RowsFoldUnique(t, rows[..|rows| - 1]);
      if !rows[|rows| - 1].BrokenRow? {
        PairFromUnique(RowsFold(t, rows[..|rows| - 1]), rows[|rows| - 1].cells, 0);
      }
    }
  }

  lemma {:induction false} Strategy2Unique(t: Table, tables: seq<GridTable>)
    requires UniqueKeys(t)
    ensures UniqueKeys(Strategy2(t, tables))
  {
    if tables != [] {
      Strategy2Unique(t, tables[..|tables| - 1]);
      RowsFoldUnique(Strategy2(t, tables[..|tables| - 1]), tables[|tables| - 1].rows);
    }
  }

  lemma {:induction false} Strategy3Unique(t: Table, es: seq<LabelElement>)
    requires UniqueKeys(t)
    ensures UniqueKeys(Strategy3(t, es))
  {
    if es != [] {
      Strategy3Unique(t, es[..|es| - 1]);
      var e := es[|es| - 1];
      if !e.BrokenLabel? && !e.inSearchFilter && e.valueText.Some? {
        PutKeepsUnique(Strategy3(t, es[..|es| - 1]), CleanText(e.text), CleanText(e.valueText.value));
      }
    }
  }

  /** Strategy 1 of `_extract_all_table_data`: header cells with the data cell after them. */
  method HeaderPairs(headers: seq<HeaderCell>) returns (data: Table)
    ensures data == Strategy1([], headers)
  {
    data := [];
    for i := 0 to |headers|
      invariant data == Strategy1([], headers[..i])
    {
      assert headers[..i + 1][..i] == headers[..i];
      data := AddHeader(data, headers[i]);
    }
    assert headers[..|headers|] == headers;
  }

  /** One header cell of strategy 1. */
  method AddHeader(t: Table, h: HeaderCell) returns (data: Table)
    ensures data == HeaderStep(t, h)
  {
    data := t;
    if !h.BrokenHeader? && !h.inSearchFilter {
      var lbl := CleanText(h.text);
      if lbl != "" && h.followingTd.Some? && h.followingTd.value != "" {
        var value := CleanText(h.followingTd.value);
        if value != "" {
          data := Put(data, lbl, value);
        }
      }
    }
  }

  /** Strategy 2: the rows of every table outside the search filter. */
  method TablePairs(start: Table, tables: seq<GridTable>) returns (data: Table)
    ensures data == Strategy2(start, tables)
  {
    data := start;
    for i := 0 to |tables|
      invariant data == Strategy2(start, tables[..i])
    {
      assert tables[..i + 1][..i] == tables[..i];
      if tables[i].inSearchFilter != Some(true) {
        var rows := tables[i].rows;
        ghost var before := data;
        for r := 0 to |rows|
          invariant data == RowsFold(before, rows[..r])
        {
          assert rows[..r + 1][..r] == rows[..r];
          if !rows[r].BrokenRow? {
            data := PairRow(data, rows[r].cells);
          }
        }
        assert rows[..|rows|] == rows;
      }
    }
    assert tables[..|tables|] == tables;
  }

  /** Strategy 3: label elements with a value element, for labels not yet stored. */
  method LabelPairs(start: Table, labels: seq<LabelElement>) returns (data: Table)
    ensures data == Strategy3(start, labels)
  {
    data := start;
    for i := 0 to |labels|
      invariant data == Strategy3(start, labels[..i])
    {
      assert labels[..i + 1][..i] == labels[..i];
      var e := labels[i];
      if !e.BrokenLabel? && !e.inSearchFilter {
        var lbl := CleanText(e.text);
        if lbl != "" && e.valueText.Some? {
          var value := CleanText(e.valueText.value);
          if value != "" && !HasKey(data, lbl) {
            data := data + [(lbl, value)];
          }
        }
      }
    }
    assert labels[..|labels|] == labels;
  }

  /** `_extract_all_table_data`: the three strategies in turn; no label is stored twice. */
  method ExtractAllTableData(view: DetailView) returns (data: Table)
    ensures data == AllTableData(view)
    ensures UniqueKeys(data)
  {
    data := HeaderPairs(view.headers);
    data := TablePairs(data, view.tables);
    data := LabelPairs(data, view.labels);
    AllTableDataUnique(view);
  }

  // ---------------------------------------------------------------------
  // Attached files

  /** The text after the last '.' (`s.split('.')[-1]`). */
  function AfterLastDot(s: string): (r: string)
    ensures '.' !in r
    ensures '.' in s ==> |r| < |s| && s == s[..|s| - |r| - 1] + "." + r
    ensures '.' !in s ==> r == s
  {
    if s == [] then []
    else if s[|s| - 1] == '.' then []
    else
      var r := AfterLastDot(s[..|s| - 1]);
      assert '.' in s ==> '.' in s[..|s| - 1] by {
        if '.' in s {
          var k :| 0 <= k < |s| && s[k] == '.';
          assert s[..|s| - 1][k] == '.';
        }
      }
      assert s == s[..|s| - 1] + [s[|s| - 1]];
      if '.' in s[..|s| - 1] then
        assert s[..|s| - 1] == s[..|s| - 1][..|s| - 1 - |r| - 1] + "." + r;
        r + [s[|s| - 1]]
      else
        r + [s[|s| - 1]]
  }

  /** The file type: the lower-cased extension after the last '.', if there is a '.'. */
  function FileType(filename: string): (r: Option<string>)
    ensures r.Some? <==> '.' in filename
    ensures r.Some? ==> '.' !in r.value && |r.value| < |filename|
  {
    if '.' in filename then
      var ext := AfterLastDot(filename);
      assert forall k :: 0 <= k < |ext| ==> Lower(ext)[k] == LowerChar(ext[k]);
      assert '.' !in Lower(ext);
      Some(Lower(ext))
    else None
  }

  /** A link of a file area: its text, its `href` and the size found in its row. */
  datatype FileLink = FileLink(text: string, href: Option<string>, size: Option<string>) | BrokenLink

  /** Strategy 1 for one link. */
  function FileOf(link: FileLink): (r: Option<Schema.AttachedFile>)
    ensures r.Some? ==> |r.value.filename| >= 2 && r.value.fileType == FileType(r.value.filename)
  {
    if link.BrokenLink? then None
    else
      var name := CleanText(link.text);
      if |name| < 2 then None
      else Some(Schema.AttachedFile(name, Some(link.href.GetOr("")), link.size, FileType(name)))
  }

  /** Strategy 2 for one link: longer than two characters, no size, no type. */
  function PlainFileOf(link: FileLink): (r: Option<Schema.AttachedFile>)
    ensures r.Some? ==> |r.value.filename| > 2 && r.value.size.None? && r.value.fileType.None?
  {
    if link.BrokenLink? then None
    else
      var name := CleanText(link.text);
      if |name| > 2 then Some(Schema.AttachedFile(name, Some(link.href.GetOr("")), None, None)) else None
  }

  /** Strategy 1 over a list of links, in order. */
  function GridFiles(links: seq<FileLink>): (r: seq<Schema.AttachedFile>)
    ensures forall f :: f in r ==> |f.filename| >= 2 && f.fileType == FileType(f.filename)
  {
    if links == [] then []
    else
      var rest := GridFiles(links[..|links| - 1]);
      match FileOf(links[|links| - 1])
      case Some(f) => rest + [f]
      case None => rest
  }

  /** Strategy 2 over a list of links, in order. */
  function PlainFiles(links: seq<FileLink>): (r: seq<Schema.AttachedFile>)
    ensures forall f :: f in r ==> |f.filename| > 2 && f.size.None? && f.fileType.None?
  {
    if links == [] then []
    else
      var rest := PlainFiles(links[..|links| - 1]);
      match PlainFileOf(links[|links| - 1])
      case Some(f) => rest + [f]
      case None => rest
  }

  /** The links of all areas, area by area. */
  function Flatten<T>(xss: seq<seq<T>>): seq<T> {
    if xss == [] then [] else Flatten(xss[..|xss| - 1]) + xss[|xss| - 1]
  }

  function AttachedFilesFrom(fileDivs: seq<seq<FileLink>>, fileSections: seq<seq<FileLink>>): seq<Schema.AttachedFile> {
    var first := GridFiles(Flatten(fileDivs));
    if first != [] then first else PlainFiles(Flatten(fileSections))
  }

  /** The two strategies' guarantees: every file name has at least two
      characters; strategy 2 is consulted only when strategy 1 found nothing,
      and its files carry neither size nor type, while strategy 1 files have
      the type of their extension. */
  lemma AttachedFilesShape(fileDivs: seq<seq<FileLink>>, fileSections: seq<seq<FileLink>>)
    ensures GridFiles(Flatten(fileDivs)) != [] ==> AttachedFilesFrom(fileDivs, fileSections) == GridFiles(Flatten(fileDivs))
    ensures forall f :: f in AttachedFilesFrom(fileDivs, fileSections) ==> |f.filename| >= 2
    ensures forall f :: f in AttachedFilesFrom(fileDivs, fileSections) ==>
              f.fileType == FileType(f.filename) || (f.size.None? && f.fileType.None? && |f.filename| > 2)
  {
  }

  /** `_parse_attached_files`: strategy 1 over the links of the file grids;
      only if that finds nothing, strategy 2 over the attachment areas. */
  method ParseAttachedFiles(fileDivs: seq<seq<FileLink>>, fileSections: seq<seq<FileLink>>)
    returns (files: seq<Schema.AttachedFile>)
    ensures files == AttachedFilesFrom(fileDivs, fileSections)
  {
    files := [];
    var links := Flatten(fileDivs);
    for i := 0 to |links|
      invariant files == GridFiles(links[..i])
    {
      assert links[..i + 1][..i] == links[..i];
      var f := FileOf(links[i]);
      if f.Some? {
        files := files + [f.value];
      }
    }
    assert links[..|links|] == links;
    if files == [] {
      links := Flatten(fileSections);
      for i := 0 to |links|
        invariant files == PlainFiles(links[..i])
      {
        assert links[..i + 1][..i] == links[..i];
        var f := PlainFileOf(links[i]);
        if f.Some? {
          files := files + [f.value];
        }
      }
      assert links[..|links|] == links;
    }
  }

  // ---------------------------------------------------------------------
  // The whole page

  /** A detail page: the context the parser reads, the contact popup's
      lbl/value pairs, the file areas and the page URL. */
  datatype DetailPage = DetailPage(
    view: DetailView,
    contactPopup: Table,
    fileDivs: seq<seq<FileLink>>,
    fileSections: seq<seq<FileLink>>,
    url: string)

  /** `all_data.update(contact_data)` */
  function Update(t: Table, u: Table): Table {
    if u == [] then t else Put(Update(t, u[..|u| - 1]), u[|u| - 1].0, u[|u| - 1].1)
  }

  /** The label/value table the mapping reads: the page's tables, then the
      contact popup's pairs on top. */
  function PageTable(page: DetailPage): Table {
    Update(AllTableData(page.view), page.contactPopup)
  }

  /** `notice.update(mapped)`: every mapped field overrides the base record. */
  function WithMapped(base: Item, mapped: map<string, string>): (r: Item)
    ensures r.Keys == base.Keys + mapped.Keys
    ensures forall f :: f in mapped ==> r[f] == Str(mapped[f])
    ensures forall k :: k in base && k !in mapped ==> r[k] == base[k]
  {
    base + map k | k in mapped :: Str(mapped[k])
  }

  function FilesValue(files: seq<Schema.AttachedFile>): Value {
    List(seq(|files|, i requires 0 <= i < |files| => Schema.AttachedFileValue(files[i])))
  }

  /** The mapped fields of a page. */
  function PageFields(page: DetailPage): map<string, string> {
    Mapped(PageTable(page), FieldMappings)
  }

  /** The notice `parse_page` assembles: the base record updated with the
      mapped fields, the attached files when there are any, and the page URL
      as `source_url`; the base record's own values survive wherever nothing
      overrides them. */
  function Assemble(base: Item, mapped: map<string, string>, files: seq<Schema.AttachedFile>, url: string): (notice: Item)
    ensures notice.Keys == base.Keys + mapped.Keys + {"source_url"} + (if files != [] then {"attached_files"} else {})
    ensures notice["source_url"] == Str(url)
    ensures forall f :: f in mapped && f != "source_url" && f != "attached_files" ==> notice[f] == Str(mapped[f])
    ensures forall k :: k in base && k !in mapped && k != "attached_files" && k != "source_url" ==> notice[k] == base[k]
    ensures files != [] ==> notice["attached_files"] == FilesValue(files)
  {
    var withMapped := WithMapped(base, mapped);
    var withFiles := if files != [] then withMapped["attached_files" := FilesValue(files)] else withMapped;
    withFiles["source_url" := Str(url)]
  }

  /** `parse_page` on a detail page. */
  function ParsePage(base: Item, page: DetailPage): (notice: Item)
    ensures notice.Keys >= base.Keys
    ensures "source_url" in notice && notice["source_url"] == Str(page.url)
  {
    Assemble(base, PageFields(page), AttachedFilesFrom(page.fileDivs, page.fileSections), page.url)
  }

  /** Every field the page fills is a mapped notice field with a non-empty,
      plausible value. */
  lemma PageFieldsValid(page: DetailPage)
    ensures forall f :: f in PageFields(page) ==>
      (exists i :: 0 <= i < |FieldMappings| && FieldMappings[i].0 == f)
      && PageFields(page)[f] != "" && ValidateFieldValue(f, Some(PageFields(page)[f]))
  {
    MappedFieldsValid(PageTable(page), FieldMappings);
  }
}
