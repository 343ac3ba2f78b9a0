/**
 * The fortune-scoring engine of services/strokeEngine.ts: the stroke count of
 * a Hangul syllable, the wrap-to-base reduction `getMod`, the hexagram lookup
 * `getHex` and the four-entry report `analyzeFortune`.
 *
 * The two tables come from a constants module that is not part of this model;
 * they are parameters here (`StrokeTables`, `HexagramDb`).
 */
module StrokeEngine {
  import opened Wrappers
  import opened Types
  import opened JsNumber
  import Arith

  // ---------------------------------------------------------------------------
  // getMod: remainder that wraps to the base instead of to zero
  // ---------------------------------------------------------------------------

  /**
   * `getMod(n, div)`: `n % div` (JavaScript's remainder), except that an exact
   * multiple of `div` gives `div` instead of 0. The result is congruent to `n`
   * modulo `div`; it is `div` exactly for the multiples of `div`; on
   * non-negative `n` it lies in 1..div.
   */
  function GetMod(n: int, div: int): (r: int)
    requires div > 0
    ensures r % div == n % div
    ensures r == div <==> n % div == 0
    ensures n % div != 0 ==> r == JsRem(n, div)
    ensures n >= 0 ==> 1 <= r <= div
    ensures n < 0 ==> r == div || -div < r < 0
  {
    var m := JsRem(n, div);
    if m == 0 then div
    else
      assert m % div != 0 by {
        if m > 0 {
          Arith.DivModUnique(div, m, 0, m);
        } else {
          Arith.DivModUnique(div, m, -1, m + div);
        }
      }
      m
  }

  /** Reference definition of the reduction: the representative of `n` modulo `base` in 1..base. */
  function Wrap(n: int, base: int): (r: int)
    requires base > 0
    ensures 1 <= r <= base
  {
    (n - 1) % base + 1
  }

  /** On the non-negative numbers the engine is given, `getMod` is the wrap-to-base reduction. */
  lemma GetModIsWrap(n: int, div: int)
    requires n >= 0 && div > 0
    ensures GetMod(n, div) == Wrap(n, div)
  {
    var q, rem := n / div, n % div;
    assert n == div * q + rem;
    if rem == 0 {
      assert n - 1 == div * (q - 1) + (div - 1);
      Arith.DivModUnique(div, n - 1, q - 1, div - 1);
    } else {
      Arith.DivModUnique(div, n - 1, q, rem - 1);
    }
  }

  /** Adding a multiple of the base to a non-negative number does not change its reduction. */
  lemma GetModShift(n: int, div: int, k: nat)
    requires n >= 0 && div > 0
    ensures GetMod(n + div * k, div) == GetMod(n, div)
  {
    if k > 0 {
      Arith.MulAtLeast(div, k);
    }
    Arith.ModShift(n, div, k);
  }

  /** Adding a multiple of 24 leaves both reductions the report uses, modulo 8 and modulo 6, unchanged. */
  lemma GetModShift24(n: int, m: nat)
    requires n >= 0
    ensures GetMod(n + 24 * m, 8) == GetMod(n, 8)
    ensures GetMod(n + 24 * m, 6) == GetMod(n, 6)
  {
    assert 24 * m == 8 * (3 * m) == 6 * (4 * m);
    GetModShift(n, 8, 3 * m);
    GetModShift(n, 6, 4 * m);
  }

  // ---------------------------------------------------------------------------
  // getHangulStroke: decomposition of a precomposed syllable and weight sum
  // ---------------------------------------------------------------------------

  /** First code point of the precomposed Hangul syllable block (가). */
  const SyllableBase := 0xAC00
  /** Number of precomposed syllables: 19 leads, 21 vowels, 28 trails. */
  const SyllableCount := 11172

  /** Lead consonants in syllable order. */
  const ChoList: string := "ㄱㄲㄴㄷㄸㄹㅁㅂㅃㅅㅆㅇㅈㅉㅊㅋㅌㅍㅎ"
  /** Vowels in syllable order. */
  const JungList: string := "ㅏㅐㅑㅒㅓㅔㅕㅖㅗㅘㅙㅚㅛㅜㅝㅞㅟㅠㅡㅢㅣ"
  /** Trailing consonants in syllable order; index 0 is the empty string (no trail). */
  const JongList: seq<string> := ["", "ㄱ", "ㄲ", "ㄳ", "ㄴ", "ㄵ", "ㄶ", "ㄷ", "ㄹ", "ㄺ", "ㄻ", "ㄼ", "ㄽ", "ㄾ", "ㄿ", "ㅀ", "ㅁ", "ㅂ", "ㅄ", "ㅅ", "ㅆ", "ㅇ", "ㅈ", "ㅊ", "ㅋ", "ㅌ", "ㅍ", "ㅎ"]

  /** The lead, vowel and trail indices of a syllable. */
  datatype JamoIndices = JamoIndices(cho: int, jung: int, jong: int)

  predicate ValidIndices(j: JamoIndices) {
    0 <= j.cho < 19 && 0 <= j.jung < 21 && 0 <= j.jong < 28
  }

  /** Offset in the syllable block of the syllable with the given indices. */
  function Compose(j: JamoIndices): (code: int)
    requires ValidIndices(j)
    ensures 0 <= code < SyllableCount
  {
    j.cho * 588 + j.jung * 28 + j.jong
  }

  /** The index arithmetic of `getHangulStroke`: 588 = 21 * 28 syllables per lead, 28 per vowel. */
  function Decompose(code: int): (j: JamoIndices)
    requires 0 <= code < SyllableCount
    ensures ValidIndices(j)
    ensures Compose(j) == code
  {
    JamoIndices(code / 588, (code % 588) / 28, code % 28)
  }

  /** Decomposing a composed syllable gives back its indices. */
  lemma DecomposeCompose(j: JamoIndices)
    requires ValidIndices(j)
    ensures Decompose(Compose(j)) == j
  {
    var code := Compose(j);
    Arith.DivModUnique(588, code, j.cho, j.jung * 28 + j.jong);
    Arith.DivModUnique(28, j.jung * 28 + j.jong, j.jung, j.jong);
    Arith.DivModUnique(28, code, j.cho * 21 + j.jung, j.jong);
  }

  /** The syllable character with the given indices. */
  function Syllable(j: JamoIndices): (c: char)
    requires ValidIndices(j)
  {
    (SyllableBase + Compose(j)) as char
  }

  /** `HANGUL_STROKES_ENGINE`: stroke weights keyed by lead, vowel and trail jamo. */
  datatype StrokeTables = StrokeTables(cho: map<string, int>, jung: map<string, int>, jong: map<string, int>)

  predicate NonNegativeWeights(t: StrokeTables) {
    && (forall k :: k in t.cho ==> t.cho[k] >= 0)
    && (forall k :: k in t.jung ==> t.jung[k] >= 0)
    && (forall k :: k in t.jong ==> t.jong[k] >= 0)
  }

  /** `table[key] || 0`: the stored weight, and 0 for a missing key. */
  function Weight(table: map<string, int>, key: string): (r: int)
    ensures key !in table ==> r == 0
    ensures key in table ==> r == table[key]
    ensures (forall k :: k in table ==> table[k] >= 0) ==> r >= 0
  {
    if key in table then table[key] else 0
  }

  /**
   * The weights of the three jamo of a syllable, added. A syllable without a
   * trail adds only its lead and vowel unless the table weighs the empty trail.
   */
  function JamoStrokes(t: StrokeTables, j: JamoIndices): (r: int)
    requires ValidIndices(j)
    ensures NonNegativeWeights(t) ==> r >= Weight(t.cho, [ChoList[j.cho]]) + Weight(t.jung, [JungList[j.jung]]) >= 0
    ensures j.jong == 0 && "" !in t.jong ==> r == Weight(t.cho, [ChoList[j.cho]]) + Weight(t.jung, [JungList[j.jung]])
  {
    Weight(t.cho, [ChoList[j.cho]]) + Weight(t.jung, [JungList[j.jung]]) + Weight(t.jong, JongList[j.jong])
  }

  /** The stroke count of the UTF-16 unit at `code` past the block start; 0 outside the block. */
  function StrokeOfOffset(t: StrokeTables, code: int): (r: int)
    ensures code < 0 || code >= SyllableCount ==> r == 0
    ensures NonNegativeWeights(t) ==> r >= 0
  {
    if code < 0 || code > 11171 then 0
    else JamoStrokes(t, Decompose(code))
  }

  /**
   * `getHangulStroke`: the stroke count of the first UTF-16 unit of `s`, 0
   * when `s` is empty or does not start with a precomposed syllable.
   */
  function GetHangulStroke(t: StrokeTables, s: string): (r: int)
    ensures |s| == 0 || s[0] as int < SyllableBase || s[0] as int >= SyllableBase + SyllableCount ==> r == 0
    ensures NonNegativeWeights(t) ==> r >= 0
  {
    if |s| == 0 then 0
    else StrokeOfOffset(t, s[0] as int - SyllableBase)
  }

  /** A syllable's stroke count is the sum of its lead, vowel and trail weights, whatever follows it. */
  lemma StrokeOfSyllable(t: StrokeTables, j: JamoIndices, rest: string)
    requires ValidIndices(j)
    ensures GetHangulStroke(t, [Syllable(j)] + rest) == JamoStrokes(t, j)
  {
    var s := [Syllable(j)] + rest;
    var code := Compose(j);
    assert s[0] as int - SyllableBase == code;
    DecomposeCompose(j);
    assert StrokeOfOffset(t, code) == JamoStrokes(t, Decompose(code));
  }

  /** Only the first character of the input is read. */
  lemma FirstCharOnly(t: StrokeTables, s: string)
    requires |s| > 0
    ensures GetHangulStroke(t, s) == GetHangulStroke(t, s[..1])
  {
    var first := s[..1];
    assert |first| == 1 && first[0] == s[0];
    var code := s[0] as int - SyllableBase;
    assert GetHangulStroke(t, s) == StrokeOfOffset(t, code);
    assert GetHangulStroke(t, first) == StrokeOfOffset(t, code);
  }

  // ---------------------------------------------------------------------------
  // analyzeFortune: the four aggregates and their hexagrams
  // ---------------------------------------------------------------------------

  /** 원격, 형격, 이격 and 정격, from the surname and the two given-name stroke counts. */
  datatype Aggregates = Aggregates(won: int, hyung: int, lee: int, jung: int)

  function ComputeAggregates(s: int, n1: int, n2: int): (a: Aggregates)
    ensures a.jung == a.hyung + n2 == a.lee + n1 == a.won + s
    ensures a.hyung - a.lee == n1 - n2
    ensures s >= 0 && n1 >= 0 && n2 >= 0 ==> a.won >= 0 && a.hyung >= 0 && a.lee >= 0 && a.jung >= 0
  {
    Aggregates(n1 + n2, s + n1, s + n2, s + n1 + n2)
  }

  /** One row of `HEXAGRAM_DB`. */
  datatype HexEntry = HexEntry(name: string, desc: string, status: Status)

  type HexagramDb = map<string, HexEntry>

  /**
   * The lookup key: the two numbers written one after the other. Two numbers
   * from 0 to 9 give exactly their two digit characters.
   */
  function HexKey(upper: int, lower: int): (key: string)
    ensures |key| >= 2
    ensures 0 <= upper < 10 && 0 <= lower < 10 ==> key == [DigitChar(upper), DigitChar(lower)]
  {
    IntToString(upper) + IntToString(lower)
  }

  const DefaultDesc := "꾸준한 노력이 결실을 맺는 시기입니다. 겸손함으로 덕을 쌓으십시오. 현재 이 괘의 상세 데이터가 준비 중입니다."

  /** The tag text `upper-lower` shown in the default name and in every report entry. */
  function PairText(upper: int, lower: int): string {
    IntToString(upper) + "-" + IntToString(lower)
  }

  /**
   * `getHex`: the table row for the key of `(upper, lower)`, or a neutral
   * placeholder naming the pair when the table has no such row.
   */
  function GetHex(db: HexagramDb, upper: int, lower: int): (e: HexEntry)
    ensures HexKey(upper, lower) in db ==> e == db[HexKey(upper, lower)]
    ensures HexKey(upper, lower) !in db ==>
      e.status == Neutral && e.desc == DefaultDesc && e.name == "운명의 괘 (" + PairText(upper, lower) + ")"
  {
    var key := HexKey(upper, lower);
    if key in db then db[key]
    else HexEntry("운명의 괘 (" + PairText(upper, lower) + ")", DefaultDesc, Neutral)
  }

  /** For two single digits the key gives back both digits, so distinct pairs never share a row. */
  lemma HexKeyDeterminesPair(u: int, l: int, u': int, l': int)
    requires 1 <= u <= 9 && 1 <= l <= 9 && 1 <= u' <= 9 && 1 <= l' <= 9
    ensures HexKey(u, l) == HexKey(u', l') ==> u == u' && l == l'
  {
    if HexKey(u, l) == HexKey(u', l') {
      assert HexKey(u, l)[0] == HexKey(u', l')[0];
      assert HexKey(u, l)[1] == HexKey(u', l')[1];
    }
  }

  /** Titles of the four entries, in report order. */
  const StageTitles: seq<string> := ["초년운 (元格)", "중년운 (亨格)", "장년운 (利格)", "총운 (貞格)"]

  /**
   * One report entry: the hexagram of `(upper, lower)`, tagged with the pair it
   * was looked up by. It copies the table row when the key is present, and is
   * the neutral placeholder otherwise.
   */
  function StageResult(db: HexagramDb, title: string, upper: int, lower: int): (r: FortuneResult)
    ensures r.category == Jonghap && r.title == title
    ensures r.tags == Some(["수치: " + PairText(upper, lower)])
    ensures HexKey(upper, lower) in db ==>
      var row := db[HexKey(upper, lower)];
      r.name == row.name && r.description == row.desc && r.status == row.status
    ensures HexKey(upper, lower) !in db ==>
      r.status == Neutral && r.description == DefaultDesc && r.name == "운명의 괘 (" + PairText(upper, lower) + ")"
  {
    var hex := GetHex(db, upper, lower);
    FortuneResult(Jonghap, title, hex.name, hex.desc, hex.status, Some(["수치: " + PairText(upper, lower)]))
  }

  /**
   * `analyzeFortune(s, n1, n2)`: four entries, 초년운, 중년운, 장년운 and 총운,
   * from the pairs (형/8, 원/8), (형/8, 이/8), (형/8, 정/6) and (정/8, 원/8).
   */
  function AnalyzeFortune(db: HexagramDb, s: int, n1: int, n2: int): (r: seq<FortuneResult>)
    ensures |r| == 4
    ensures forall i :: 0 <= i < 4 ==> r[i].category == Jonghap && r[i].title == StageTitles[i]
    ensures forall i :: 0 <= i < 4 ==> r[i].tags.Some? && |r[i].tags.value| == 1
  {
    var a := ComputeAggregates(s, n1, n2);
    [
      StageResult(db, StageTitles[0], GetMod(a.hyung, 8), GetMod(a.won, 8)),
      StageResult(db, StageTitles[1], GetMod(a.hyung, 8), GetMod(a.lee, 8)),
      StageResult(db, StageTitles[2], GetMod(a.hyung, 8), GetMod(a.jung, 6)),
      StageResult(db, StageTitles[3], GetMod(a.jung, 8), GetMod(a.won, 8))
    ]
  }

  /**
   * What an entry for the single-digit pair `(u, l)` must hold: its title, the
   * category 종합, the tag `수치: u-l`, and the name, description and status of
   * the table row keyed by the two digits, or of the neutral placeholder when
   * there is none.
   */
  predicate IsStageEntry(db: HexagramDb, e: FortuneResult, title: string, u: int, l: int)
    requires 1 <= u <= 9 && 1 <= l <= 9
  {
    var pair := [DigitChar(u)] + "-" + [DigitChar(l)];
    var key := [DigitChar(u), DigitChar(l)];
    && e.category == Jonghap
    && e.title == title
    && e.tags == Some(["수치: " + pair])
    && (if key in db then
          e.name == db[key].name && e.description == db[key].desc && e.status == db[key].status
        else
          e.name == "운명의 괘 (" + pair + ")" && e.description == DefaultDesc && e.status == Neutral)
  }

  lemma StageResultSpec(db: HexagramDb, title: string, n: int, nBase: int, m: int, mBase: int)
    requires n >= 0 && m >= 0 && 0 < nBase <= 9 && 0 < mBase <= 9
    ensures IsStageEntry(db, StageResult(db, title, GetMod(n, nBase), GetMod(m, mBase)), title, Wrap(n, nBase), Wrap(m, mBase))
  {
    GetModIsWrap(n, nBase);
    GetModIsWrap(m, mBase);
  }

  /**
   * For non-negative stroke counts the report is the four entries of the
   * wrap-to-base pairs (형/8, 원/8), (형/8, 이/8), (형/8, 정/6), (정/8, 원/8), in that order.
   */
  lemma ReportFollowsReducedPairs(db: HexagramDb, s: int, n1: int, n2: int)
    requires s >= 0 && n1 >= 0 && n2 >= 0
    ensures var r, a := AnalyzeFortune(db, s, n1, n2), ComputeAggregates(s, n1, n2);
      && |r| == 4
      && IsStageEntry(db, r[0], StageTitles[0], Wrap(a.hyung, 8), Wrap(a.won, 8))
      && IsStageEntry(db, r[1], StageTitles[1], Wrap(a.hyung, 8), Wrap(a.lee, 8))
      && IsStageEntry(db, r[2], StageTitles[2], Wrap(a.hyung, 8), Wrap(a.jung, 6))
      && IsStageEntry(db, r[3], StageTitles[3], Wrap(a.jung, 8), Wrap(a.won, 8))
  {
    var a := ComputeAggregates(s, n1, n2);
    StageResultSpec(db, StageTitles[0], a.hyung, 8, a.won, 8);
    StageResultSpec(db, StageTitles[1], a.hyung, 8, a.lee, 8);
    StageResultSpec(db, StageTitles[2], a.hyung, 8, a.jung, 6);
    StageResultSpec(db, StageTitles[3], a.jung, 8, a.won, 8);
  }

  /**
   * The report depends on the stroke counts only through the five reduced
   * values 형/8, 원/8, 이/8, 정/8 and 정/6.
   */
  lemma ReportOfReducedValues(db: HexagramDb, s: int, n1: int, n2: int, s': int, n1': int, n2': int)
    requires var a, b := ComputeAggregates(s, n1, n2), ComputeAggregates(s', n1', n2');
      && GetMod(a.hyung, 8) == GetMod(b.hyung, 8)
      && GetMod(a.won, 8) == GetMod(b.won, 8)
      && GetMod(a.lee, 8) == GetMod(b.lee, 8)
      && GetMod(a.jung, 8) == GetMod(b.jung, 8)
      && GetMod(a.jung, 6) == GetMod(b.jung, 6)
    ensures AnalyzeFortune(db, s, n1, n2) == AnalyzeFortune(db, s', n1', n2')
  {
  }

  /** Adding multiples of 24 to the stroke counts leaves all five reduced values unchanged. */
  lemma ReducedValuesShift24(s: int, n1: int, n2: int, i: nat, j: nat, k: nat)
    requires s >= 0 && n1 >= 0 && n2 >= 0
    ensures var a, b := ComputeAggregates(s + 24 * i, n1 + 24 * j, n2 + 24 * k), ComputeAggregates(s, n1, n2);
      && GetMod(a.hyung, 8) == GetMod(b.hyung, 8)
      && GetMod(a.won, 8) == GetMod(b.won, 8)
      && GetMod(a.lee, 8) == GetMod(b.lee, 8)
      && GetMod(a.jung, 8) == GetMod(b.jung, 8)
      && GetMod(a.jung, 6) == GetMod(b.jung, 6)
  {
    var a := ComputeAggregates(s + 24 * i, n1 + 24 * j, n2 + 24 * k);
    var b := ComputeAggregates(s, n1, n2);
    assert a.won == b.won + 24 * (j + k);
    GetModShift24(b.won, j + k);
    assert a.hyung == b.hyung + 24 * (i + j);
    GetModShift24(b.hyung, i + j);
    assert a.lee == b.lee + 24 * (i + k);
    GetModShift24(b.lee, i + k);
    assert a.jung == b.jung + 24 * (i + j + k);
    GetModShift24(b.jung, i + j + k);
  }

  /**
   * Adding 24, the least common multiple of the bases 8 and 6, to any of the
   * non-negative stroke counts leaves the report unchanged.
   */
  lemma ReportPeriodic(db: HexagramDb, s: int, n1: int, n2: int, i: nat, j: nat, k: nat)
    requires s >= 0 && n1 >= 0 && n2 >= 0
    ensures AnalyzeFortune(db, s + 24 * i, n1 + 24 * j, n2 + 24 * k) == AnalyzeFortune(db, s, n1, n2)
  {
    ReducedValuesShift24(s, n1, n2, i, j, k);
    ReportOfReducedValues(db, s + 24 * i, n1 + 24 * j, n2 + 24 * k, s, n1, n2);
  }

  /** Strokes 3, 4, 5: 원 9, 형 7, 이 8, 정 12, looked up under the keys 71, 78, 76 and 41. */
  lemma ExampleReport(db: HexagramDb)
    ensures var r := AnalyzeFortune(db, 3, 4, 5);
      && r[0].tags == Some(["수치: 7-1"]) && r[0].status == GetHex(db, 7, 1).status
      && r[0].name == GetHex(db, 7, 1).name && r[0].description == GetHex(db, 7, 1).desc
      && r[1].tags == Some(["수치: 7-8"]) && r[1].status == GetHex(db, 7, 8).status
      && r[1].name == GetHex(db, 7, 8).name && r[1].description == GetHex(db, 7, 8).desc
      && r[2].tags == Some(["수치: 7-6"]) && r[2].status == GetHex(db, 7, 6).status
      && r[2].name == GetHex(db, 7, 6).name && r[2].description == GetHex(db, 7, 6).desc
      && r[3].tags == Some(["수치: 4-1"]) && r[3].status == GetHex(db, 4, 1).status
      && r[3].name == GetHex(db, 4, 1).name && r[3].description == GetHex(db, 4, 1).desc
      && HexKey(7, 1) == "71" && HexKey(7, 8) == "78" && HexKey(7, 6) == "76" && HexKey(4, 1) == "41"
  {
    SingleDigit(7);
    SingleDigit(1);
    SingleDigit(8);
    SingleDigit(6);
    SingleDigit(4);
    assert GetMod(7, 8) == 7 && GetMod(9, 8) == 1 && GetMod(8, 8) == 8;
    assert GetMod(12, 6) == 6 && GetMod(12, 8) == 4;
    assert PairText(7, 1) == "7-1";
    assert PairText(7, 8) == "7-8";
    assert PairText(7, 6) == "7-6";
    assert PairText(4, 1) == "4-1";
    var r := AnalyzeFortune(db, 3, 4, 5);
    assert r[0] == StageResult(db, StageTitles[0], 7, 1);
    assert r[1] == StageResult(db, StageTitles[1], 7, 8);
    assert r[2] == StageResult(db, StageTitles[2], 7, 6);
    assert r[3] == StageResult(db, StageTitles[3], 4, 1);
    assert "수치: " + "7-1" == "수치: 7-1";
    assert "수치: " + "7-8" == "수치: 7-8";
    assert "수치: " + "7-6" == "수치: 7-6";
    assert "수치: " + "4-1" == "수치: 4-1";
  }
}
