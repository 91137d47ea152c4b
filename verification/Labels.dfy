/** The fixed texts of the pages, character by character in UTF-8. */
module Labels {
  import opened Utf8

  datatype Text =
    | Welcome
    | PressConfirm
    | LivingRoom
    | Room
    | Kitchen
    | ParamSettings
    | ScreenSettings
    | Version
    | RestoreDefaults
    | Networking
    | Distance
    | Sensitivity
    | Power
    | Brightness
    | ScreenOffTime
    | VersionNumber
    | NetworkingNow
    | ConfirmChange
    | ConfirmRestore

  function Chars(t: Text): seq<Char> {
    match t
    case Welcome => [[0xE6, 0xAC, 0xA2], [0xE8, 0xBF, 0x8E], [0xE4, 0xBD, 0xBF], [0xE7, 0x94, 0xA8]]
    case PressConfirm => [[0xE8, 0xAF, 0xB7], [0xE6, 0x8C, 0x89], [0xE7, 0xA1, 0xAE],
                          [0xE8, 0xAE, 0xA4], [0xE9, 0x94, 0xAE]]
    case LivingRoom => [[0xE5, 0xAE, 0xA2], [0xE5, 0x8E, 0x85]]
    case Room => [[0xE6, 0x88, 0xBF], [0xE9, 0x97, 0xB4]]
    case Kitchen => [[0xE5, 0x8E, 0xA8], [0xE6, 0x88, 0xBF]]
    case ParamSettings => [[0xE5, 0x8F, 0x82], [0xE6, 0x95, 0xB0], [0xE8, 0xAE, 0xBE], [0xE7, 0xBD, 0xAE]]
    case ScreenSettings => [[0xE5, 0xB1, 0x8F], [0xE5, 0xB9, 0x95], [0xE8, 0xAE, 0xBE], [0xE7, 0xBD, 0xAE]]
    case Version => [[0xE7, 0x89, 0x88], [0xE6, 0x9C, 0xAC]]
    case RestoreDefaults => [[0xE6, 0x81, 0xA2], [0xE5, 0xA4, 0x8D], [0xE9, 0xBB, 0x98], [0xE8, 0xAE, 0xA4]]
    case Networking => [[0xE7, 0xBB, 0x84], [0xE7, 0xBD, 0x91]]
    case Distance => [[0xE8, 0xB7, 0x9D], [0xE7, 0xA6, 0xBB]]
    case Sensitivity => [[0xE7, 0x81, 0xB5], [0xE6, 0x95, 0x8F], [0xE5, 0xBA, 0xA6]]
    case Power => [[0xE5, 0x8F, 0x91], [0xE5, 0xB0, 0x84], [0xE5, 0x8A, 0x9F], [0xE7, 0x8E, 0x87]]
    case Brightness => [[0xE4, 0xBA, 0xAE], [0xE5, 0xBA, 0xA6]]
    case ScreenOffTime => [[0xE6, 0x81, 0xAF], [0xE5, 0xB1, 0x8F], [0xE6, 0x97, 0xB6], [0xE9, 0x97, 0xB4]]
    case VersionNumber => [[0xE7, 0x89, 0x88], [0xE6, 0x9C, 0xAC], [0xE5, 0x8F, 0xB7]]
    case NetworkingNow => [[0xE7, 0xBB, 0x84], [0xE7, 0xBD, 0x91], [0xE4, 0xB8, 0xAD]]
    case ConfirmChange => [[0xE7, 0xA1, 0xAE], [0xE5, 0xAE, 0x9A], [0xE6, 0x9B, 0xB4],
                           [0xE6, 0x94, 0xB9], [0xE5, 0x8F, 0x82], [0xE6, 0x95, 0xB0]]
    case ConfirmRestore => [[0xE7, 0xA1, 0xAE], [0xE8, 0xAE, 0xA4], [0xE6, 0x81, 0xA2],
                            [0xE5, 0xA4, 0x8D], [0xE9, 0xBB, 0x98], [0xE8, 0xAE, 0xA4]]
  }

  // ---------- what the texts say ----------

  /** The code point of a character of up to three bytes. */
  function CodePoint(c: Char): nat
    requires WellFormed(c) && |c| <= 3
  {
    if |c| == 1 then c[0] as nat
    else if |c| == 2 then (c[0] as nat - 0xC0) * 64 + (c[1] as nat - 0x80)
    else (c[0] as nat - 0xE0) * 4096 + (c[1] as nat - 0x80) * 64 + (c[2] as nat - 0x80)
  }

  function Title(t: Text): string {
    match t
    case Welcome => "欢迎使用"
    case PressConfirm => "请按确认键"
    case LivingRoom => "客厅"
    case Room => "房间"
    case Kitchen => "厨房"
    case ParamSettings => "参数设置"
    case ScreenSettings => "屏幕设置"
    case Version => "版本"
    case RestoreDefaults => "恢复默认"
    case Networking => "组网"
    case Distance => "距离"
    case Sensitivity => "灵敏度"
    case Power => "发射功率"
    case Brightness => "亮度"
    case ScreenOffTime => "息屏时间"
    case VersionNumber => "版本号"
    case NetworkingNow => "组网中"
    case ConfirmChange => "确定更改参数"
    case ConfirmRestore => "确认恢复默认"
  }

  predicate Reads(c: Char, ch: char) {
    |c| == 3 && WellFormed(c) && CodePoint(c) == ch as nat
  }

  /** Character by character, the bytes are the UTF-8 encoding of the title. */
  predicate Spells(cs: seq<Char>, title: string) {
    |cs| == |title| <= 6 && forall i :: 0 <= i < |title| ==> Reads(cs[i], title[i])
  }

  lemma RoomTexts(t: Text)
    requires t.Welcome? || t.PressConfirm? || t.LivingRoom? || t.Room? || t.Kitchen?
    ensures Spells(Chars(t), Title(t))
  {
    match t
    case Welcome =>
    case PressConfirm =>
    case LivingRoom =>
    case Room =>
    case Kitchen =>
  }

  lemma SettingsTexts(t: Text)
    requires t.ParamSettings? || t.ScreenSettings? || t.Version? || t.RestoreDefaults? || t.Networking?
    ensures Spells(Chars(t), Title(t))
  {
    match t
    case ParamSettings =>
    case ScreenSettings =>
    case Version =>
    case RestoreDefaults =>
    case Networking =>
  }

  lemma ParameterTexts(t: Text)
    requires t.Distance? || t.Sensitivity? || t.Power? || t.Brightness? || t.ScreenOffTime?
    ensures Spells(Chars(t), Title(t))
  {
    match t
    case Distance =>
    case Sensitivity =>
    case Power =>
    case Brightness =>
    case ScreenOffTime =>
  }

  lemma NoticeTexts(t: Text)
    requires t.VersionNumber? || t.NetworkingNow? || t.ConfirmChange? || t.ConfirmRestore?
    ensures Spells(Chars(t), Title(t))
  {
    match t
    case VersionNumber =>
    case NetworkingNow =>
    case ConfirmChange =>
    case ConfirmRestore =>
  }

  /** Every text of the pages is what the source writes. */
  lemma TextReads(t: Text)
    ensures Spells(Chars(t), Title(t))
  {
    hide *;
    match t
    case Welcome => RoomTexts(t);
    case PressConfirm => RoomTexts(t);
    case LivingRoom => RoomTexts(t);
    case Room => RoomTexts(t);
    case Kitchen => RoomTexts(t);
    case ParamSettings => SettingsTexts(t);
    case ScreenSettings => SettingsTexts(t);
    case Version => SettingsTexts(t);
    case RestoreDefaults => SettingsTexts(t);
    case Networking => SettingsTexts(t);
    case Distance => ParameterTexts(t);
    case Sensitivity => ParameterTexts(t);
    case Power => ParameterTexts(t);
    case Brightness => ParameterTexts(t);
    case ScreenOffTime => ParameterTexts(t);
    case VersionNumber => NoticeTexts(t);
    case NetworkingNow => NoticeTexts(t);
    case ConfirmChange => NoticeTexts(t);
    case ConfirmRestore => NoticeTexts(t);
  }

  predicate AllPrintable(cs: seq<Char>) {
    forall i :: 0 <= i < |cs| ==> Printable(cs[i])
  }

  lemma TextPrintable(t: Text)
    ensures AllPrintable(Chars(t))
  {
    TextReads(t);
    hide Chars, Title, CodePoint;
    forall i | 0 <= i < |Chars(t)| ensures Printable(Chars(t)[i]) {
      assert Reads(Chars(t)[i], Title(t)[i]);
    }
  }

  lemma TailNat(c: bv8)
    requires Tail(c)
    ensures 0x80 <= c as nat < 0xC0
  {
  }

  lemma Base64(a: int, x: nat, u: nat, b: int, y: nat, v: nat)
    requires x < 64 && u < 64 && y < 64 && v < 64
    requires a * 4096 + x * 64 + u == b * 4096 + y * 64 + v
    ensures a == b && x == y && u == v
  {
  }

  lemma SameByte(a: bv8, b: bv8)
    requires a as nat == b as nat
    ensures a == b
  {
    assert (a as nat) as bv8 == a && (b as nat) as bv8 == b;
  }

  lemma Parts(c: Char) returns (h: int, x: nat, u: nat)
    requires WellFormed(c) && |c| == 3
    ensures h == c[0] as nat - 0xE0 && x == c[1] as nat - 0x80 && u == c[2] as nat - 0x80
    ensures x < 64 && u < 64 && CodePoint(c) == h * 4096 + x * 64 + u
  {
    TailNat(c[1]);
    TailNat(c[2]);
    h, x, u := c[0] as nat - 0xE0, c[1] as nat - 0x80, c[2] as nat - 0x80;
  }

  /** A code point has one encoding only. */
  lemma CodePointInjective(a: Char, b: Char)
    requires WellFormed(a) && WellFormed(b) && |a| == |b| == 3 && CodePoint(a) == CodePoint(b)
    ensures a == b
  {
    hide *;
    var h, x, u := Parts(a);
    var k, y, v := Parts(b);
    Base64(h, x, u, k, y, v);
    SameByte(a[0], b[0]);
    SameByte(a[1], b[1]);
    SameByte(a[2], b[2]);
  }
}
