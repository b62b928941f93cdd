/**
 * `AuthHandler` (auth.py): who a request belongs to, from the headers an
 * mTLS-terminating proxy (CAC) or an OAuth2 proxy sets, with an in-memory
 * cache that keeps a user for five minutes under its subject DN or e-mail.
 * The clock and the database's `upsert_user` are inputs; the DN and name
 * helpers cover ASCII case mapping and ASCII digits.
 */
module Auth {
  import opened Wrappers
  import opened Strings

  /** The user dict: `id`, `piv_id` (None for OAuth users), `cn`, `org` and, for OAuth users, `email`. */
  datatype User = User(id: int, pivId: Option<string>, cn: string, org: string, email: Option<string>)

  /** `_get_guest_user()` */
  const Guest := User(0, Some("0"), "Guest", "Unauthenticated", None)

  // ------------------------------------------------------------ DN fields

  /** `s[k..]` starts with `key` (upper-case letters, matched ignoring ASCII case) and then `=`. */
  predicate KeyAt(s: string, key: string, k: nat) {
    k + |key| < |s| && Upper(s[k..k + |key|]) == key && s[k + |key|] == '='
  }

  /** Where the whitespace run that starts at `i` ends: what `\s*` consumes. */
  function SkipSpace(s: string, i: nat): (j: nat)
    requires i <= |s|
    ensures i <= j <= |s| && (j == |s| || !IsSpace(s[j]))
    ensures forall x :: i <= x < j ==> IsSpace(s[x])
    decreases |s| - i
  {
    if i < |s| && IsSpace(s[i]) then SkipSpace(s, i + 1) else i
  }

  /** Where `[^,]+` stops when it starts at `i`: the next comma, or the end. */
  function ValueEnd(s: string, i: nat): (e: nat)
    requires i <= |s|
    ensures i <= e <= |s| && (e == |s| || s[e] == ',')
    ensures forall x :: i <= x < e ==> s[x] != ','
  {
    match FindChar(s, ',', i)
    case Some(e) => e
    case None => |s|
  }

  /** The group of `KEY=([^,]+)` when the key starts at `k`. */
  function ValueAfterKey(s: string, key: string, k: nat): (v: Option<string>)
    requires k <= |s|
    ensures v.Some? ==> v.value != [] && ',' !in v.value
  {
    if KeyAt(s, key, k) then
      var start := k + |key| + 1;
      var e := ValueEnd(s, start);
      if e == start then None else Some(s[start..e])
    else None
  }

  /** The group of `(?:^|,\s*)KEY=([^,]+)` for a match starting at `i`. */
  function MatchAt(s: string, key: string, i: nat): (v: Option<string>)
    requires i <= |s|
    ensures v.Some? ==> v.value != [] && ',' !in v.value
  {
    if i == 0 && ValueAfterKey(s, key, 0).Some? then ValueAfterKey(s, key, 0)
    else if i < |s| && s[i] == ',' then ValueAfterKey(s, key, SkipSpace(s, i + 1))
    else None
  }

  /** `re.search`: the leftmost position at or after `i` where the pattern matches. */
  function FirstMatch(s: string, key: string, i: nat): (r: Option<nat>)
    requires i <= |s|
    ensures r.Some? ==> i <= r.value <= |s| && MatchAt(s, key, r.value).Some?
    ensures r.Some? ==> forall j :: i <= j < r.value ==> MatchAt(s, key, j).None?
    ensures r.None? ==> forall j :: i <= j <= |s| ==> MatchAt(s, key, j).None?
    decreases |s| - i
  {
    if MatchAt(s, key, i).Some? then Some(i)
    else if i == |s| then None
    else FirstMatch(s, key, i + 1)
  }

  /** The stripped group of the first match of the field `key`, or `default`. */
  function Field(s: string, key: string, default: string): string {
    match FirstMatch(s, key, 0)
    case Some(j) => Strip(MatchAt(s, key, j).value)
    case None => default
  }

  // ------------------------------------------------------------- PIV ids

  predicate TenDigitsAt(s: string, i: int) {
    0 <= i && i + 10 <= |s| && forall x :: i <= x < i + 10 ==> IsDigitChar(s[x])
  }

  /** `re.search(r'\d{10}', s)` from position `i`. */
  function FindTenDigits(s: string, i: nat): (r: Option<nat>)
    ensures r.Some? ==> i <= r.value && TenDigitsAt(s, r.value)
    ensures r.Some? ==> forall j :: i <= j < r.value ==> !TenDigitsAt(s, j)
    ensures r.None? ==> forall j :: i <= j ==> !TenDigitsAt(s, j)
    decreases |s| - i
  {
    if i + 10 > |s| then None
    else if TenDigitsAt(s, i) then Some(i)
    else FindTenDigits(s, i + 1)
  }

  /** The first run of ten digits in `s`. */
  function TenDigitRun(s: string): (r: Option<string>)
    ensures r.Some? ==> |r.value| == 10 && IsDigits(r.value)
  {
    match FindTenDigits(s, 0)
    case Some(i) => Some(s[i..i + 10])
    case None => None
  }

  /** `s.split(c)[-1]`: the text after the last `c`. */
  function LastPart(s: string, c: char): (r: string)
    ensures |r| <= |s| && r == s[|s| - |r|..]
  {
    s[LastIndexOf(s, c) + 1..]
  }

  /**
   * The PIV id `_parse_dn` picks: the first ten-digit run in the CN, else
   * the first in the whole DN, else the CN's last dot-separated part when
   * it is all digits, else "0".
   */
  function PivId(cn: string, dn: string): (piv: string)
    ensures piv == "0" || IsDigits(piv)
  {
    match TenDigitRun(cn)
    case Some(d) => d
    case None =>
      match TenDigitRun(dn)
      case Some(d) => d
      case None => if '.' in cn && IsDigits(LastPart(cn, '.')) then LastPart(cn, '.') else "0"
  }

  datatype DnInfo = DnInfo(pivId: string, cn: string, org: string)

  const UnknownUser := "Unknown User"

  /**
   * `_parse_dn`.  The PIV id is a digit string (or "0"), and it has ten
   * digits exactly when the DN holds a run of ten digits.
   */
  function ParseDn(dn: string): (info: DnInfo)
    ensures dn == [] ==> info == DnInfo("0", UnknownUser, "Unknown")
    ensures info.pivId == "0" || IsDigits(info.pivId)
    ensures dn != [] ==> (|info.pivId| == 10 <==> TenDigitRun(dn).Some?)
  {
    if dn == [] then DnInfo("0", UnknownUser, "Unknown")
    else
      var cn := Field(dn, "CN", UnknownUser);
      var org := Field(dn, "O", "Unknown Org");
      PivIdLength(dn, cn);
      DnInfo(PivId(cn, dn), cn, org)
  }

  lemma NoTenDigitsWithoutDigits(s: string)
    requires forall x :: 0 <= x < |s| ==> !IsDigitChar(s[x])
    ensures TenDigitRun(s).None?
  {
    forall j | 0 <= j < |s| ensures !TenDigitsAt(s, j) {
      assert !IsDigitChar(s[j]);
    }
  }

  /** `t` occurs in `s` at `a`. */
  predicate SliceAt(t: string, s: string, a: nat) {
    a + |t| <= |s| && forall x :: 0 <= x < |t| ==> t[x] == s[a + x]
  }

  lemma TenDigitsInSlice(s: string, t: string, a: nat)
    requires SliceAt(t, s, a) && TenDigitRun(t).Some?
    ensures TenDigitRun(s).Some?
  {
    var i := FindTenDigits(t, 0).value;
    assert TenDigitsAt(s, a + i) by {
      forall x | a + i <= x < a + i + 10 ensures IsDigitChar(s[x]) {
        assert s[x] == t[x - a];
      }
    }
  }

  /** A match's group occurs in the text. */
  lemma MatchSlice(s: string, key: string, i: nat) returns (a: nat)
    requires i <= |s| && MatchAt(s, key, i).Some?
    ensures SliceAt(MatchAt(s, key, i).value, s, a)
  {
    var k := if i == 0 && ValueAfterKey(s, key, 0).Some? then 0 else SkipSpace(s, i + 1);
    a := k + |key| + 1;
  }

  /** A stripped text occurs in the text. */
  lemma StripSlice(v: string) returns (lo: nat)
    ensures SliceAt(Strip(v), v, lo)
  {
    var l := LStrip(v);
    lo := |v| - |l|;
  }

  /** The CN `_parse_dn` finds is a stripped slice of the DN, or the default without digits. */
  lemma CnDigitsInDn(dn: string, cn: string)
    requires dn != [] && cn == Field(dn, "CN", UnknownUser)
    ensures TenDigitRun(cn).Some? ==> TenDigitRun(dn).Some?
  {
    match FirstMatch(dn, "CN", 0)
    case None =>
      assert forall x :: 0 <= x < |UnknownUser| ==> !IsDigitChar(UnknownUser[x]);
      NoTenDigitsWithoutDigits(UnknownUser);
    case Some(j) =>
      var v := MatchAt(dn, "CN", j).value;
      var a := MatchSlice(dn, "CN", j);
      var lo := StripSlice(v);
      assert cn == Strip(v);
      assert SliceAt(cn, dn, a + lo);
      if TenDigitRun(cn).Some? {
        TenDigitsInSlice(dn, cn, a + lo);
      }
  }

  lemma PivIdLength(dn: string, cn: string)
    requires dn != [] && cn == Field(dn, "CN", UnknownUser)
    ensures |PivId(cn, dn)| == 10 <==> TenDigitRun(dn).Some?
  {
    CnDigitsInDn(dn, cn);
    if TenDigitRun(cn).None? && TenDigitRun(dn).None? && PivId(cn, dn) != "0" {
      LongDigitSuffix(cn, LastPart(cn, '.'));
    }
  }

  /** A digit suffix of ten or more characters starts a ten-digit run. */
  lemma LongDigitSuffix(s: string, suffix: string)
    requires |suffix| <= |s| && suffix == s[|s| - |suffix|..] && IsDigits(suffix)
    ensures |suffix| >= 10 ==> TenDigitsAt(s, |s| - |suffix|)
  {
    var i := |s| - |suffix|;
    assert forall x :: i <= x < |s| ==> s[x] == suffix[x - i];
  }

  /** `KEY=v` at `k`, with `v` running to a comma or the end, matches with group `v`. */
  lemma ValueAfterKeyAt(s: string, key: string, k: nat, v: string)
    requires v != [] && ',' !in v
    requires k + |key| + 1 + |v| <= |s|
    requires Upper(s[k..k + |key|]) == key && s[k + |key|] == '='
    requires s[k + |key| + 1..k + |key| + 1 + |v|] == v
    requires k + |key| + 1 + |v| == |s| || s[k + |key| + 1 + |v|] == ','
    ensures ValueAfterKey(s, key, k) == Some(v)
  {
    var start := k + |key| + 1;
    forall x | start <= x < start + |v| ensures s[x] != ',' {
      assert s[x] == v[x - start];
    }
  }

  /** No match starts inside a comma-free stretch that is not at the start. */
  lemma NoMatchInside(s: string, key: string, a: nat, b: nat)
    requires 0 < a <= b <= |s| && ',' !in s[a..b]
    ensures forall j :: a <= j < b ==> MatchAt(s, key, j).None?
  {
    forall j | a <= j < b ensures MatchAt(s, key, j).None? {
      assert s[j] == s[a..b][j - a];
    }
  }

  /** A match with none before it is the one `re.search` finds, and its stripped group is the field. */
  lemma FirstMatchAt(s: string, key: string, j: nat, default: string)
    requires j <= |s| && MatchAt(s, key, j).Some?
    requires forall x :: 0 <= x < j ==> MatchAt(s, key, x).None?
    ensures FirstMatch(s, key, 0) == Some(j)
    ensures Field(s, key, default) == Strip(MatchAt(s, key, j).value)
  {
    var r := FirstMatch(s, key, 0);
    assert r.Some?;
    assert !(r.value < j);
    assert !(j < r.value);
  }

  /** The first field of a DN that starts `CN=v,` is `v`, stripped. */
  lemma LeadingCn(dn: string, cn: string, rest: string)
    requires cn != [] && ',' !in cn && dn == "CN=" + cn + "," + rest
    ensures Field(dn, "CN", UnknownUser) == Strip(cn)
  {
    assert dn[0..2] == "CN" && dn[3..3 + |cn|] == cn && dn[3 + |cn|] == ',';
    ValueAfterKeyAt(dn, "CN", 0, cn);
    assert FirstMatch(dn, "CN", 0) == Some(0);
  }

  /** In a DN `CN=…,OU=…,O=v` no `O=` match starts before the last comma. */
  lemma NoOrgBeforeLastComma(dn: string, cn: string, ou: string, o: string)
    requires ',' !in cn && ',' !in ou
    requires dn == "CN=" + cn + ",OU=" + ou + ",O=" + o
    ensures forall j :: 0 <= j < 3 + |cn| + 4 + |ou| ==> MatchAt(dn, "O", j).None?
  {
    var c1 := 3 + |cn|;
    var c2 := c1 + 4 + |ou|;
    assert dn[0..1] == "C" && dn[1..c1] == "N=" + cn;
    assert dn[c1] == ',' && dn[c1 + 1] == 'O' && dn[c1 + 2] == 'U';
    assert dn[c1 + 1..c2] == "OU=" + ou;
    assert MatchAt(dn, "O", 0).None?;
    NoMatchInside(dn, "O", 1, c1);
    assert SkipSpace(dn, c1 + 1) == c1 + 1;
    assert MatchAt(dn, "O", c1).None?;
    NoMatchInside(dn, "O", c1 + 1, c2);
  }

  /** In a DN `CN=…,OU=…,O=v` the match at the last comma has group `v`. */
  lemma OrgAtLastComma(dn: string, cn: string, ou: string, o: string)
    requires o != [] && ',' !in o
    requires dn == "CN=" + cn + ",OU=" + ou + ",O=" + o
    ensures MatchAt(dn, "O", 3 + |cn| + 4 + |ou|) == Some(o)
  {
    var c2 := 3 + |cn| + 4 + |ou|;
    assert dn[c2..] == ",O=" + o;
    assert dn[c2] == ',' && dn[c2 + 1..c2 + 2] == "O" && dn[c2 + 2] == '=' && dn[c2 + 3..] == o;
    assert SkipSpace(dn, c2 + 1) == c2 + 1;
    ValueAfterKeyAt(dn, "O", c2 + 1, o);
  }

  /**
   * In a DN `CN=…,OU=…,O=v` (values free of commas) the first `O=` field
   * is the last one.
   */
  lemma TrailingOrg(dn: string, cn: string, ou: string, o: string)
    requires o != [] && ',' !in cn && ',' !in ou && ',' !in o
    requires dn == "CN=" + cn + ",OU=" + ou + ",O=" + o
    ensures Field(dn, "O", "Unknown Org") == Strip(o)
  {
    NoOrgBeforeLastComma(dn, cn, ou, o);
    OrgAtLastComma(dn, cn, ou, o);
    FieldOfMatch(dn, "O", 3 + |cn| + 4 + |ou|, "Unknown Org", o);
  }

  lemma FieldOfMatch(s: string, key: string, j: nat, default: string, v: string)
    requires j <= |s| && MatchAt(s, key, j) == Some(v)
    requires forall x :: 0 <= x < j ==> MatchAt(s, key, x).None?
    ensures Field(s, key, default) == Strip(v)
  {
    FirstMatchAt(s, key, j, default);
  }

  /**
   * A DN laid out as `CN=…,OU=…,O=…`, each value free of commas, yields the
   * stripped CN and O values.
   */
  lemma ParseDnLayout(cn: string, ou: string, o: string)
    requires cn != [] && o != [] && ',' !in cn && ',' !in ou && ',' !in o
    ensures var info := ParseDn("CN=" + cn + ",OU=" + ou + ",O=" + o);
            info.cn == Strip(cn) && info.org == Strip(o)
  {
    var dn := "CN=" + cn + ",OU=" + ou + ",O=" + o;
    LeadingCn(dn, cn, "OU=" + ou + ",O=" + o);
    TrailingOrg(dn, cn, ou, o);
  }

  // --------------------------------------------------------- display names

  /** `[p for p in parts if not p.isdigit() and p]` */
  function NameParts(parts: seq<string>): (r: seq<string>)
    ensures forall k :: 0 <= k < |r| ==> r[k] != [] && !IsDigits(r[k])
  {
    if parts == [] then []
    else (if parts[0] != [] && !IsDigits(parts[0]) then [parts[0]] else []) + NameParts(parts[1..])
  }

  /** The filter keeps exactly the parts that are non-empty and not all digits. */
  lemma {:induction false} NamePartsKeeps(parts: seq<string>)
    ensures forall p :: p in NameParts(parts) <==> p in parts && p != [] && !IsDigits(p)
  {
    if parts != [] {
      NamePartsKeeps(parts[1..]);
      assert parts == [parts[0]] + parts[1..];
    }
  }

  const GuestUserName := "Guest User"

  /** `_format_friendly_name` */
  function FriendlyName(rawCn: string): (name: string)
    ensures rawCn == [] || rawCn == UnknownUser ==> name == GuestUserName
  {
    if rawCn == [] || rawCn == UnknownUser then GuestUserName
    else
      var np := NameParts(SplitOn(rawCn, '.'));
      if |np| >= 2 then Capitalize(Lower(np[1])) + " " + Capitalize(Lower(np[0]))
      else if |np| == 1 then Title(np[0])
      else Title(Replace(rawCn, ".", " "))
  }

  lemma LowerIdempotent(s: string)
    ensures Lower(Lower(s)) == Lower(s)
  {
  }

  lemma CapitalizeLower(s: string)
    ensures Capitalize(Lower(s)) == Capitalize(s)
  {
    if s != [] {
      assert Lower(s)[1..] == Lower(s[1..]);
      LowerIdempotent(s[1..]);
    }
  }

  /** Joining parts without `c` by `c` and splitting on `c` gives the parts back. */
  lemma {:induction false} SplitOfJoin(parts: seq<string>, c: char)
    requires parts != [] && forall k :: 0 <= k < |parts| ==> c !in parts[k]
    ensures SplitOn(Join([c], parts), c) == parts
  {
    if |parts| == 1 {
      SplitOnAbsent(parts[0], c);
    } else {
      var tail := Join([c], parts[1..]);
      SplitOfJoin(parts[1..], c);
      assert Join([c], parts) == parts[0] + [c] + tail;
      SplitOnFirst(parts[0], tail, c);
      assert [parts[0]] + parts[1..] == parts;
    }
  }

  lemma UnknownUserHasNoDot()
    ensures '.' !in UnknownUser
  {
  }

  lemma NamePartsOfNames(last: string, first: string, rest: seq<string>)
    requires last != [] && first != [] && !IsDigits(last) && !IsDigits(first)
    ensures |NameParts([last, first] + rest)| >= 2 && NameParts([last, first] + rest)[..2] == [last, first]
  {
    var parts := [last, first] + rest;
    assert parts[1..] == [first] + rest;
    assert ([first] + rest)[1..] == rest;
    assert NameParts(parts) == [last] + NameParts([first] + rest);
    assert NameParts([first] + rest) == [first] + NameParts(rest);
  }

  /** When the name parts hold two or more entries, the friendly name is built from the first two. */
  lemma FriendlyNameOfParts(raw: string, np: seq<string>)
    requires raw != [] && raw != UnknownUser
    requires np == NameParts(SplitOn(raw, '.')) && |np| >= 2
    ensures FriendlyName(raw) == Capitalize(Lower(np[1])) + " " + Capitalize(Lower(np[0]))
  {
  }

  /** A text holding a dot is not the default common name. */
  lemma DottedIsNotUnknown(raw: string, k: nat)
    requires k < |raw| && raw[k] == '.'
    ensures raw != UnknownUser
  {
    UnknownUserHasNoDot();
  }

  /** Splitting `LAST.FIRST.…` on dots gives back the parts, and the first dot follows `LAST`. */
  lemma CacNameSplit(last: string, first: string, rest: seq<string>)
    requires '.' !in last && '.' !in first && forall k :: 0 <= k < |rest| ==> '.' !in rest[k]
    ensures var raw := Join(".", [last, first] + rest);
            SplitOn(raw, '.') == [last, first] + rest && |last| < |raw| && raw[|last|] == '.'
  {
    var parts := [last, first] + rest;
    SplitOfJoin(parts, '.');
    assert parts[1..] == [first] + rest;
    assert Join(".", parts) == last + "." + Join(".", [first] + rest);
  }

  /**
   * A CAC common name `LAST.FIRST.…` (the first two parts non-empty and not
   * all digits, no part holding a dot) becomes `First Last`.
   */
  lemma FriendlyNameOfCacName(last: string, first: string, rest: seq<string>)
    requires last != [] && first != [] && !IsDigits(last) && !IsDigits(first)
    requires '.' !in last && '.' !in first && forall k :: 0 <= k < |rest| ==> '.' !in rest[k]
    ensures FriendlyName(Join(".", [last, first] + rest)) == Capitalize(first) + " " + Capitalize(last)
  {
    var raw := Join(".", [last, first] + rest);
    CacNameSplit(last, first, rest);
    DottedIsNotUnknown(raw, |last|);
    NamePartsOfNames(last, first, rest);
    FriendlyNameOfParts(raw, NameParts([last, first] + rest));
    CapitalizeLower(first);
    CapitalizeLower(last);
  }

  // ---------------------------------------------------------- organisation

  /** `pat` (upper case) occurs at `i` in `s` when ASCII case is ignored. */
  predicate OccursIgnoringCase(s: string, pat: string, i: int) {
    0 <= i && i + |pat| <= |s| && Upper(s[i..i + |pat|]) == pat
  }

  /** `pat in s.upper()` is a case-insensitive search in `s`. */
  lemma UpperContains(s: string, pat: string)
    ensures Contains(Upper(s), pat) <==> exists i :: OccursIgnoringCase(s, pat, i)
  {
    ContainsIff(Upper(s), pat);
    forall i ensures OccursAt(Upper(s), pat, i) <==> OccursIgnoringCase(s, pat, i) {
      if 0 <= i && i + |pat| <= |s| {
        assert Upper(s)[i..i + |pat|] == Upper(s[i..i + |pat|]);
      }
    }
    if Contains(Upper(s), pat) {
      var i :| OccursAt(Upper(s), pat, i);
      assert OccursIgnoringCase(s, pat, i);
    }
    if exists i :: OccursIgnoringCase(s, pat, i) {
      var i :| OccursIgnoringCase(s, pat, i);
      assert OccursAt(Upper(s), pat, i);
    }
  }

  const ContractorOu := "OU=CONTRACTOR"
  const CivilianOu := "OU=CIVILIAN"
  const MilitaryOu := "OU=MILITARY"

  /**
   * The role `_format_organization` reads off the DN: Contractor before
   * Civilian before Military, each an `OU=…` found in any case.
   */
  function Role(dn: string): (role: string)
    ensures role == "Contractor" <==> exists i :: OccursIgnoringCase(dn, ContractorOu, i)
    ensures role == "Civilian" <==> (!exists i :: OccursIgnoringCase(dn, ContractorOu, i))
                                    && exists i :: OccursIgnoringCase(dn, CivilianOu, i)
    ensures role == "Military" <==> (!exists i :: OccursIgnoringCase(dn, ContractorOu, i))
                                    && (!exists i :: OccursIgnoringCase(dn, CivilianOu, i))
                                    && exists i :: OccursIgnoringCase(dn, MilitaryOu, i)
    ensures role == "" <==> (!exists i :: OccursIgnoringCase(dn, ContractorOu, i))
                            && (!exists i :: OccursIgnoringCase(dn, CivilianOu, i))
                            && (!exists i :: OccursIgnoringCase(dn, MilitaryOu, i))
  {
    var up := Upper(dn);
    UpperContains(dn, ContractorOu);
    UpperContains(dn, CivilianOu);
    UpperContains(dn, MilitaryOu);
    if Contains(up, ContractorOu) then "Contractor"
    else if Contains(up, CivilianOu) then "Civilian"
    else if Contains(up, MilitaryOu) then "Military"
    else ""
  }

  /** `_format_organization`: `"Role, org"`, or the stripped organisation when the DN names no role. */
  function FormatOrganization(dn: string, rawOrg: string): (r: string)
    ensures Role(dn) == "" ==> r == Strip(rawOrg)
    ensures Role(dn) != "" ==> r == Role(dn) + ", " + Strip(rawOrg)
  {
    var role := Role(dn);
    if role != "" then role + ", " + Strip(rawOrg) else Strip(rawOrg)
  }

  // ------------------------------------------------------------------ cache

  const CacheTtl := 300
  const CachePurgeAbove := 1000

  /** A cache entry: the user and when the entry expires (seconds). */
  datatype Entry = Entry(user: User, expiresAt: int)

  type Cache = map<string, Entry>

  /** `_get_cached_user`: the user while its entry lives; an expired entry it finds is deleted. */
  function Lookup(c: Cache, key: string, now: int): (r: (Option<User>, Cache))
    ensures r.0.Some? <==> key in c && now < c[key].expiresAt
    ensures r.0.Some? ==> r.0.value == c[key].user && r.1 == c
    ensures r.0.None? ==> r.1 == c - {key}
  {
    if key in c then
      if now < c[key].expiresAt then (Some(c[key].user), c) else (None, c - {key})
    else (None, c)
  }

  /** `_purge_expired_cache`: the entries that have not expired. */
  function Purged(c: Cache, now: int): (r: Cache)
    ensures forall k :: k in r <==> k in c && now <= c[k].expiresAt
    ensures forall k :: k in r ==> r[k] == c[k]
  {
    map k | k in c && !(c[k].expiresAt < now) :: c[k]
  }

  /** `_set_cached_user`: purge when above the limit, then store the user for the TTL. */
  function Stored(c: Cache, key: string, user: User, now: int): (r: Cache)
    ensures key in r && r[key] == Entry(user, now + CacheTtl)
  {
    (if |c| > CachePurgeAbove then Purged(c, now) else c)[key := Entry(user, now + CacheTtl)]
  }

  /** A stored user is found again until its TTL runs out. */
  lemma StoredIsFound(c: Cache, key: string, user: User, t: int, now: int)
    requires now < t + CacheTtl
    ensures Lookup(Stored(c, key, user, t), key, now).0 == Some(user)
  {
  }

  /** Storing keeps every other entry that is still live at the time of storing. */
  lemma StoredKeepsLive(c: Cache, key: string, user: User, now: int, k: string)
    requires k in c && k != key && now <= c[k].expiresAt
    ensures k in Stored(c, key, user, now) && Stored(c, key, user, now)[k] == c[k]
  {
  }

  // ------------------------------------------------------------- requests

  /** The parts of `settings` the handler reads. */
  datatype Settings = Settings(testMode: bool, ephemeralMode: bool, authMode: string)

  type Headers = map<string, string>

  function Header(h: Headers, name: string): Option<string> {
    if name in h then Some(h[name]) else None
  }

  const EmailHeader := "X-Auth-Request-Email"
  const UserHeader := "X-Auth-Request-User"
  const DnHeader := "X-Subject-DN"
  const VerifyHeader := "X-Client-Verify"

  /** The arguments of one `db.upsert_user` call. */
  datatype Upsert = Upsert(pivId: Option<string>, name: string, org: string, email: Option<string>)

  /** What `db.upsert_user` does for a call: the user's id, or the exception it raised. */
  type Database = Upsert -> Result<int, string>

  /** A user and the cache after a request. */
  datatype Authed = Authed(user: User, cache: Cache)

  const MockPiv := "1000000001"
  /** "user.test.F.1000000001" */
  const MockCn := "user.test.F." + MockPiv
  const MockOrg := "U.S. Government"
  /** "CN=user.test.F.1000000001,OU=CONTRACTOR,O=U.S. Government" */
  const MockDn := "CN=" + MockCn + "," + ContractorOu + ",O=" + MockOrg

  /** `_upsert_mock_user`: the test user, id 1 when the database fails. */
  function MockUser(db: Database): (u: User)
    ensures u.cn == "Test User" && u.org == "Contractor, U.S. Government"
    ensures u.id == (if db(Upsert(Some(MockPiv), u.cn, u.org, None)).Ok?
                     then db(Upsert(Some(MockPiv), u.cn, u.org, None)).value else 1)
  {
    var name := FriendlyName(MockCn);
    var org := FormatOrganization(MockDn, MockOrg);
    MockNames();
    var id := match db(Upsert(Some(MockPiv), name, org, None)) case Ok(i) => i case Err(_) => 1;
    User(id, Some(MockPiv), name, org, None)
  }

  lemma MockNames()
    ensures FriendlyName(MockCn) == "Test User"
    ensures FormatOrganization(MockDn, MockOrg) == "Contractor, U.S. Government"
  {
    MockFriendlyName("test", "user", ["F", MockPiv]);
    MockCnParts();
    ContractorRole("CN=" + MockCn + ",", ",O=" + MockOrg);
    assert MockDn == ("CN=" + MockCn + ",") + ContractorOu + (",O=" + MockOrg);
    MockOrganization(MockDn, MockOrg);
  }

  lemma MockCnParts()
    ensures Join(".", ["user", "test"] + ["F", MockPiv]) == MockCn
  {
    var parts := ["user", "test"] + ["F", MockPiv];
    assert parts == ["user", "test", "F", MockPiv];
    assert Join(".", parts[3..]) == MockPiv;
    assert Join(".", parts[2..]) == "F" + "." + MockPiv;
    assert Join(".", parts[1..]) == "test" + "." + ("F" + "." + MockPiv);
    assert Join(".", parts) == "user" + "." + ("test" + "." + ("F" + "." + MockPiv));
  }

  lemma TestUserText(first: string, last: string)
    requires first == "test" && last == "user"
    ensures Capitalize(first) + " " + Capitalize(last) == "Test User"
  {
    LowerUncased("est");
    LowerUncased("ser");
  }

  lemma MockFriendlyName(first: string, last: string, rest: seq<string>)
    requires first == "test" && last == "user" && rest == ["F", MockPiv]
    ensures FriendlyName(Join(".", [last, first] + rest)) == "Test User"
  {
    assert last[0] == 'u' && first[0] == 't';
    assert '.' !in rest[1];
    FriendlyNameOfCacName(last, first, rest);
    TestUserText(first, last);
  }

  /** A DN holding `OU=CONTRACTOR` has the Contractor role. */
  lemma ContractorRole(pre: string, post: string)
    ensures Role(pre + ContractorOu + post) == "Contractor"
  {
    var dn := pre + ContractorOu + post;
    assert dn[|pre|..|pre| + |ContractorOu|] == ContractorOu;
    UpperUncased(ContractorOu);
    assert OccursIgnoringCase(dn, ContractorOu, |pre|);
  }

  lemma MockOrganization(dn: string, org: string)
    requires Role(dn) == "Contractor" && org == MockOrg
    ensures FormatOrganization(dn, org) == "Contractor, U.S. Government"
  {
    StripUnpadded(org);
    MockOrgText(org);
  }

  lemma MockOrgText(org: string)
    requires org == MockOrg
    ensures "Contractor" + ", " + org == "Contractor, U.S. Government"
  {
  }

  /** The OAuth user's name: the `X-Auth-Request-User` header, else the e-mail's local part title-cased. */
  function OAuthName(h: Headers, email: string): string {
    var rawUser := Header(h, UserHeader).GetOr("");
    if rawUser != [] then rawUser else Title(Replace(SplitOn(email, '@')[0], ".", " "))
  }

  const OAuthOrg := "OAuth User"

  /** `_process_oauth_user` */
  function OAuthUser(h: Headers, email: string, c: Cache, now: int, db: Database): Authed {
    var (hit, c1) := Lookup(c, email, now);
    if hit.Some? then Authed(hit.value, c1)
    else
      var name := OAuthName(h, email);
      match db(Upsert(None, name, OAuthOrg, Some(email)))
      case Err(_) => Authed(Guest, c1)
      case Ok(id) =>
        var u := User(id, None, name, OAuthOrg, Some(email));
        Authed(u, Stored(c1, email, u, now))
  }

  /** The CAC branch after the verification checks: the cache, else parse, format, upsert and cache. */
  function CacUser(dn: string, c: Cache, now: int, db: Database): Authed {
    var (hit, c1) := Lookup(c, dn, now);
    if hit.Some? then Authed(hit.value, c1)
    else
      var info := ParseDn(dn);
      var name := FriendlyName(info.cn);
      var org := FormatOrganization(dn, info.org);
      match db(Upsert(Some(info.pivId), name, org, None))
      case Err(_) => Authed(Guest, c1)
      case Ok(id) =>
        var u := User(id, Some(info.pivId), name, org, None);
        Authed(u, Stored(c1, dn, u, now))
  }

  predicate HasEmail(s: Settings, h: Headers) {
    (s.authMode == "OAUTH" || s.authMode == "HYBRID") && Header(h, EmailHeader).GetOr("") != []
  }

  /** The proxy verified a client certificate and passed its subject DN. */
  predicate CertificateVerified(h: Headers) {
    Header(h, VerifyHeader) == Some("SUCCESS") && Header(h, DnHeader).GetOr("") != []
  }

  /**
   * `get_current_user`.  Outside test and ephemeral mode, anyone but the
   * guest got in through an OAuth e-mail header (OAUTH or HYBRID mode) or a
   * verified certificate with a DN (any mode but OAUTH).
   */
  function CurrentUser(s: Settings, h: Headers, c: Cache, now: int, db: Database): (r: Authed)
    ensures !(s.testMode || s.ephemeralMode) && r.user != Guest ==>
              HasEmail(s, h) || (s.authMode != "OAUTH" && CertificateVerified(h))
    ensures !(s.testMode || s.ephemeralMode) && !HasEmail(s, h) && !CertificateVerified(h) ==> r == Authed(Guest, c)
  {
    if s.testMode || s.ephemeralMode then Authed(MockUser(db), c)
    else if HasEmail(s, h) then OAuthUser(h, Header(h, EmailHeader).value, c, now, db)
    else if s.authMode == "OAUTH" then Authed(Guest, c)
    else
      var dn := Header(h, DnHeader).GetOr("");
      if Header(h, VerifyHeader) != Some("SUCCESS") then Authed(Guest, c)
      else if dn == [] then Authed(Guest, c)
      else CacUser(dn, c, now, db)
  }

  /** A user the CAC branch stores is served from the cache until its TTL runs out. */
  lemma CacUserCached(dn: string, c: Cache, t: int, now: int, db: Database, db': Database)
    requires Lookup(c, dn, t).0.None? && now < t + CacheTtl
    ensures var first := CacUser(dn, c, t, db);
            first.user != Guest ==> CacUser(dn, first.cache, now, db').user == first.user
  {
    var c1 := Lookup(c, dn, t).1;
    var first := CacUser(dn, c, t, db);
    if first.user != Guest {
      assert first.cache == Stored(c1, dn, first.user, t);
      StoredIsFound(c1, dn, first.user, t, now);
    }
  }

  /**
   * A certificate login is cached: after a first request that missed the
   * cache and logged the user in, the same headers within the TTL give the
   * same user again, whatever the database would now answer.
   */
  lemma RepeatLoginIsCached(s: Settings, h: Headers, c: Cache, t: int, now: int, db: Database, db': Database)
    requires !(s.testMode || s.ephemeralMode) && !HasEmail(s, h) && s.authMode != "OAUTH" && CertificateVerified(h)
    requires Lookup(c, h[DnHeader], t).0.None? && now < t + CacheTtl
    ensures var first := CurrentUser(s, h, c, t, db);
            first.user != Guest ==> CurrentUser(s, h, first.cache, now, db').user == first.user
  {
    var dn := h[DnHeader];
    assert CurrentUser(s, h, c, t, db) == CacUser(dn, c, t, db);
    assert CurrentUser(s, h, CacUser(dn, c, t, db).cache, now, db') == CacUser(dn, CacUser(dn, c, t, db).cache, now, db');
    CacUserCached(dn, c, t, now, db, db');
  }

  /** Why `require_user` refused a request. */
  datatype Refusal = Forbidden(status: int, detail: string)

  class AuthHandler {
    var cache: Cache

    constructor()
      ensures cache == map[]
    {
      cache := map[];
    }

    method GetCachedUser(key: string, now: int) returns (user: Option<User>)
      modifies this
      ensures (user, cache) == Lookup(old(cache), key, now)
    {
      if key in cache {
        var e := cache[key];
        if now < e.expiresAt {
          return Some(e.user);
        } else {
          cache := cache - {key};
        }
      }
      return None;
    }

    /** Deletes, one by one, the keys whose entries expired before `now`. */
    method PurgeExpiredCache(now: int)
      modifies this
      ensures cache == Purged(old(cache), now)
    {
      var doomed := set k | k in cache && cache[k].expiresAt < now;
      ghost var c0 := cache;
      while doomed != {}
        invariant forall k :: k in doomed ==> k in c0 && c0[k].expiresAt < now
        invariant cache == map k | k in c0 && (c0[k].expiresAt < now ==> k in doomed) :: c0[k]
        decreases |doomed|
      {
        var k :| k in doomed;
        cache := cache - {k};
        doomed := doomed - {k};
      }
    }

    method SetCachedUser(key: string, user: User, now: int)
      modifies this
      ensures cache == Stored(old(cache), key, user, now)
    {
      if |cache| > CachePurgeAbove {
        PurgeExpiredCache(now);
      }
      cache := cache[key := Entry(user, now + CacheTtl)];
    }

    method ProcessOAuthUser(h: Headers, email: string, now: int, db: Database) returns (user: User)
      modifies this
      ensures Authed(user, cache) == OAuthUser(h, email, old(cache), now, db)
    {
      var cached := GetCachedUser(email, now);
      if cached.Some? {
        return cached.value;
      }
      var name := OAuthName(h, email);
      var id := db(Upsert(None, name, OAuthOrg, Some(email)));
      if id.Err? {
        return Guest;
      }
      user := User(id.value, None, name, OAuthOrg, Some(email));
      SetCachedUser(email, user, now);
    }

    method GetCurrentUser(s: Settings, h: Headers, now: int, db: Database) returns (user: User)
      modifies this
      ensures Authed(user, cache) == CurrentUser(s, h, old(cache), now, db)
    {
      if s.testMode || s.ephemeralMode {
        return MockUser(db);
      }
      if HasEmail(s, h) {
        user := ProcessOAuthUser(h, h[EmailHeader], now, db);
        return;
      }
      if s.authMode == "OAUTH" {
        return Guest;
      }
      var dn := Header(h, DnHeader).GetOr("");
      if Header(h, VerifyHeader) != Some("SUCCESS") || dn == [] {
        return Guest;
      }
      var cached := GetCachedUser(dn, now);
      if cached.Some? {
        return cached.value;
      }
      var info := ParseDn(dn);
      var name := FriendlyName(info.cn);
      var org := FormatOrganization(dn, info.org);
      var id := db(Upsert(Some(info.pivId), name, org, None));
      if id.Err? {
        return Guest;
      }
      user := User(id.value, Some(info.pivId), name, org, None);
      SetCachedUser(dn, user, now);
    }

    /** `require_user`: the current user, or 403 "Smart Card Required" when its id is 0. */
    method RequireUser(s: Settings, h: Headers, now: int, db: Database) returns (r: Result<User, Refusal>)
      modifies this
      ensures var a := CurrentUser(s, h, old(cache), now, db);
              cache == a.cache && (r.Err? <==> a.user.id == 0)
              && (r.Ok? ==> r.value == a.user)
              && (r.Err? ==> r.error == Forbidden(403, "Smart Card Required"))
    {
      var user := GetCurrentUser(s, h, now, db);
      if user.id == 0 {
        return Err(Forbidden(403, "Smart Card Required"));
      }
      return Ok(user);
    }
  }

  /** Without a verified certificate or an OAuth e-mail, `require_user` refuses outside test and ephemeral mode. */
  lemma GuestIsRefused(s: Settings, h: Headers, c: Cache, now: int, db: Database)
    requires !(s.testMode || s.ephemeralMode) && !HasEmail(s, h) && !CertificateVerified(h)
    ensures CurrentUser(s, h, c, now, db).user.id == 0
  {
  }
}
