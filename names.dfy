/**
 * The display-name formatter: an English item name is shown together with its
 * Korean label when the static name table has one, and unchanged otherwise.
 */
module Names {
  /**
   * The static English-to-Korean name table bundled with the app: the Korean
   * label of a name, or the empty string when the table has no entry for it.
   */
  function Label(name: string): (kor: string)
    ensures kor != "" ==> ParenFree(name)
  {
    match name
    case "Kitsune" => "키츠네"
    case "West Dragon" => "서쪽 용"
    case "East Dragon" => "동쪽 용"
    case "Dragon" => "용"
    case "Leopard" => "레오파드"
    case "Dough" => "도우(떡)"
    case "T-Rex" => "티렉스"
    case "Spirit" => "스피릿(영혼)"
    case "Venom" => "베놈(독)"
    case "Control" => "컨트롤"
    case "Mammoth" => "맘모스"
    case "Shadow" => "그림자"
    case "Gravity" => "중력"
    case "Blizzard" => "눈보라"
    case "Pain" => "페인"
    case "Lightning" => "번개"
    case "Portal" => "포탈"
    case "Phoenix" => "불사조"
    case "Sound" => "소리"
    case "Spider" => "거미"
    case "Love" => "러브"
    case "Buddha" => "부처(대불)"
    case "Quake" => "흔들"
    case "Magma" => "마그마"
    case "Ghost" => "유령"
    case "Rubber" => "고무"
    case "Light" => "빛"
    case "Diamond" => "다이아"
    case "Dark" => "어둠"
    case "Sand" => "모래"
    case "Ice" => "얼음"
    case "Flame" => "이글"
    case "Spike" => "가시"
    case "Smoke" => "연기"
    case "Bomb" => "폭탄"
    case "Spring" => "용수철"
    case "Spin" => "회전"
    case "Rocket" => "로켓"
    case "Yeti" => "예티"
    case "Gas" => "가스"
    case "Tiger" => "호랑이"
    case "Fruit Notifier" => "탐지기"
    case "Dark Blade" => "요루(닥블)"
    case "Rumble" => "럼블"
    case "Barrier" => "배리어"
    case "Chop" => "동강"
    case "Falcon" => "매"
    case _ => ""
  }

  /**
   * The user-facing label of an item: `name (label)` when the name has a
   * non-empty label, the name itself otherwise.
   */
  function DisplayName(name: string): (r: string)
    ensures name <= r
    ensures r == name <==> Label(name) == ""
    ensures Label(name) != "" ==> r[|name|..] == " (" + Label(name) + ")"
  {
    var kor := Label(name);
    if kor != "" then name + " (" + kor + ")" else name
  }

  /** The index of the first '(' in `s`, or |s| when there is none. */
  function ParenIndex(s: string): (i: nat)
    ensures i <= |s|
    ensures i < |s| ==> s[i] == '('
    ensures forall j :: 0 <= j < i ==> s[j] != '('
  {
    if s == [] then 0
    else if s[0] == '(' then 0
    else 1 + ParenIndex(s[1..])
  }

  /**
   * Recovers the canonical name from a display name: the text before the
   * first " (" when there is one, the whole string otherwise.
   */
  function CanonicalName(d: string): (n: string)
    ensures n <= d
  {
    var p := ParenIndex(d);
    if 1 <= p < |d| && d[p - 1] == ' ' then d[..p - 1] else d
  }

  /** A canonical name never contains an opening parenthesis. */
  predicate ParenFree(name: string) {
    '(' !in name
  }

  /** For a parenthesis-free name, CanonicalName undoes DisplayName. */
  lemma CanonicalOfDisplay(name: string)
    requires ParenFree(name)
    ensures CanonicalName(DisplayName(name)) == name
  {
    var d := DisplayName(name);
    if Label(name) != "" {
      var k := |name|;
      assert d == name + " (" + Label(name) + ")";
      assert d[k] == ' ' && d[k + 1] == '(';
      forall j | 0 <= j < k ensures d[j] != '(' {
        assert d[j] == name[j];
      }
      var p := ParenIndex(d);
      assert p == k + 1;
      assert d[..k] == name;
    } else {
      assert d == name;
      var p := ParenIndex(d);
      assert p == |d|;
    }
  }

  /** Distinct parenthesis-free names get distinct display names. */
  lemma DisplayNameInjective(n1: string, n2: string)
    requires ParenFree(n1) && ParenFree(n2)
    requires n1 != n2
    ensures DisplayName(n1) != DisplayName(n2)
  {
    CanonicalOfDisplay(n1);
    CanonicalOfDisplay(n2);
  }

  /**
   * Without the parenthesis-free condition injectivity fails: an unmapped
   * name that already looks like a display name collides with the mapped one.
   */
  lemma DisplayNameCollision()
    ensures "Kitsune (키츠네)" != "Kitsune"
    ensures DisplayName("Kitsune (키츠네)") == DisplayName("Kitsune")
  {
  }

  /** A mapped name gets its label; an unknown name passes through unchanged. */
  lemma DisplayNameExamples()
    ensures DisplayName("Kitsune") == "Kitsune (키츠네)"
    ensures DisplayName("Dough") == "Dough (도우(떡))"
    ensures DisplayName("UnknownFruit123") == "UnknownFruit123"
  {
  }
}
