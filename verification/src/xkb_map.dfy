/** The input simulation's translation of XKB key symbols and modifier masks
    into Qt keys and keyboard modifiers (`XKBMap`).

    Key symbols carry the values of the X11 keysym encoding (the X Window
    System protocol, appendix A, as xkbcommon's keysym header spells them);
    Qt keys carry `Qt::Key`'s values. Qt's keyboard modifiers are a set of
    flags, so the source's bitwise or is set union. The Unicode upper-case
    mapping `QChar::toUpper` applies is a parameter. */
module XkbMap {
  // ---------------------------------------------------------------------
  // Key symbols and Qt keys

  const XkbEscape: nat := 0xff1b
  const XkbIsoLeftTab: nat := 0xfe20
  const XkbDelete: nat := 0xffff
  const XkbClear: nat := 0xff0b
  const XkbF1: nat := 0xffbe
  const XkbF35: nat := 0xffe0
  const XkbKpSpace: nat := 0xff80
  const XkbKpMultiply: nat := 0xffaa
  const XkbKpDivide: nat := 0xffaf
  const XkbKp0: nat := 0xffb0
  const XkbKp9: nat := 0xffb9
  /** `KP_Equal` lies after `KP_9`, outside the keypad range below. */
  const XkbKpEqual: nat := 0xffbd
  /** The dead keys run from `dead_grave` to `dead_currency`; the table
      lists `dead_grave` to `dead_horn`. */
  const XkbDeadGrave: nat := 0xfe50
  const XkbDeadHorn: nat := 0xfe62
  const XkbDeadCurrency: nat := 0xfe6f

  const KeyEscape: int := 0x01000000
  const KeyBacktab: int := 0x01000002
  const KeyDelete: int := 0x01000007
  const KeyF1: int := 0x01000030
  const KeyF35: int := 0x01000052
  const KeyAsterisk: int := 0x2a
  const Key0: int := 0x30
  const KeyEqual: int := 0x3d
  const KeyDeadGrave: int := 0x01001250

  // ---------------------------------------------------------------------
  // The key table, section by section in the order of `KeyTbl`

  /** Miscellaneous keys, with the Sun and X386 SysReq codes. */
  const MiscKeys: seq<(nat, int)> := [
    (XkbEscape, KeyEscape), // Escape: Key_Escape
    (0xff09, 0x01000001), // Tab: Key_Tab
    (XkbIsoLeftTab, KeyBacktab), // ISO_Left_Tab: Key_Backtab
    (0xff08, 0x01000003), // BackSpace: Key_Backspace
    (0xff0d, 0x01000004), // Return: Key_Return
    (0xff63, 0x01000006), // Insert: Key_Insert
    (XkbDelete, KeyDelete), // Delete: Key_Delete
    (XkbClear, KeyDelete), // Clear: Key_Delete
    (0xff13, 0x01000008), // Pause: Key_Pause
    (0xff61, 0x01000009), // Print: Key_Print
    (0x1005ff60, 0x0100000a), // Sun SysReq: Key_SysReq
    (0x1007ff00, 0x0100000a)  // X386 SysReq: Key_SysReq
  ]

  /** Cursor movement. */
  const CursorKeys: seq<(nat, int)> := [
    (0xff50, 0x01000010), // Home: Key_Home
    (0xff57, 0x01000011), // End: Key_End
    (0xff51, 0x01000012), // Left: Key_Left
    (0xff52, 0x01000013), // Up: Key_Up
    (0xff53, 0x01000014), // Right: Key_Right
    (0xff54, 0x01000015), // Down: Key_Down
    (0xff55, 0x01000016), // Prior: Key_PageUp
    (0xff56, 0x01000017)  // Next: Key_PageDown
  ]

  /** Modifier keys, with the HP Backtab and the Sun F36 and F37 codes. */
  const ModifierKeys: seq<(nat, int)> := [
    (0xffe1, 0x01000020), // Shift_L: Key_Shift
    (0xffe2, 0x01000020), // Shift_R: Key_Shift
    (0xffe6, 0x01000020), // Shift_Lock: Key_Shift
    (0xffe3, 0x01000021), // Control_L: Key_Control
    (0xffe4, 0x01000021), // Control_R: Key_Control
    (0xffe7, 0x01000022), // Meta_L: Key_Meta
    (0xffe8, 0x01000022), // Meta_R: Key_Meta
    (0xffe9, 0x01000023), // Alt_L: Key_Alt
    (0xffea, 0x01000023), // Alt_R: Key_Alt
    (0xffe5, 0x01000024), // Caps_Lock: Key_CapsLock
    (0xff7f, 0x01000025), // Num_Lock: Key_NumLock
    (0xff14, 0x01000026), // Scroll_Lock: Key_ScrollLock
    (0xffeb, 0x01000053), // Super_L: Key_Super_L
    (0xffec, 0x01000054), // Super_R: Key_Super_R
    (0xff67, 0x01000055), // Menu: Key_Menu
    (0xffed, 0x01000056), // Hyper_L: Key_Hyper_L
    (0xffee, 0x01000057), // Hyper_R: Key_Hyper_R
    (0xff6a, 0x01000058), // Help: Key_Help
    (0x1000ff74, 0x01000002), // HP Backtab: Key_Backtab
    (0x1005ff10, 0x0100003a), // Sun F36: Key_F11
    (0x1005ff11, 0x0100003b)  // Sun F37: Key_F12
  ]

  /** The keypad keys other than the digits. */
  const KeypadKeys: seq<(nat, int)> := [
    (0xff80, 0x00000020), // KP_Space: Key_Space
    (0xff89, 0x01000001), // KP_Tab: Key_Tab
    (0xff8d, 0x01000005), // KP_Enter: Key_Enter
    (0xff95, 0x01000010), // KP_Home: Key_Home
    (0xff96, 0x01000012), // KP_Left: Key_Left
    (0xff97, 0x01000013), // KP_Up: Key_Up
    (0xff98, 0x01000014), // KP_Right: Key_Right
    (0xff99, 0x01000015), // KP_Down: Key_Down
    (0xff9a, 0x01000016), // KP_Prior: Key_PageUp
    (0xff9b, 0x01000017), // KP_Next: Key_PageDown
    (0xff9c, 0x01000011), // KP_End: Key_End
    (0xff9d, 0x0100000b), // KP_Begin: Key_Clear
    (0xff9e, 0x01000006), // KP_Insert: Key_Insert
    (0xff9f, 0x01000007), // KP_Delete: Key_Delete
    (0xffbd, 0x0000003d), // KP_Equal: Key_Equal
    (0xffaa, 0x0000002a), // KP_Multiply: Key_Asterisk
    (0xffab, 0x0000002b), // KP_Add: Key_Plus
    (0xffac, 0x0000002c), // KP_Separator: Key_Comma
    (0xffad, 0x0000002d), // KP_Subtract: Key_Minus
    (0xffae, 0x0000002e), // KP_Decimal: Key_Period
    (0xffaf, 0x0000002f)  // KP_Divide: Key_Slash
  ]

  /** International and multi-key composition. */
  const ComposeKeys: seq<(nat, int)> := [
    (0xfe03, 0x01001103), // ISO_Level3_Shift: Key_AltGr
    (0xff20, 0x01001120), // Multi_key: Key_Multi_key
    (0xff37, 0x01001137), // Codeinput: Key_Codeinput
    (0xff3c, 0x0100113c), // SingleCandidate: Key_SingleCandidate
    (0xff3d, 0x0100113d), // MultipleCandidate: Key_MultipleCandidate
    (0xff3e, 0x0100113e)  // PreviousCandidate: Key_PreviousCandidate
  ]

  /** Mode switch. */
  const ModeSwitchKeys: seq<(nat, int)> := [
    (0xff7e, 0x0100117e), // Mode_switch: Key_Mode_switch
    (0xff7e, 0x0100117e)  // script_switch: Key_Mode_switch
  ]

  /** Japanese keyboards. */
  const JapaneseKeys: seq<(nat, int)> := [
    (0xff21, 0x01001121), // Kanji: Key_Kanji
    (0xff22, 0x01001122), // Muhenkan: Key_Muhenkan
    (0xff23, 0x01001123), // Henkan_Mode: Key_Henkan
    (0xff23, 0x01001123), // Henkan: Key_Henkan
    (0xff24, 0x01001124), // Romaji: Key_Romaji
    (0xff25, 0x01001125), // Hiragana: Key_Hiragana
    (0xff26, 0x01001126), // Katakana: Key_Katakana
    (0xff27, 0x01001127), // Hiragana_Katakana: Key_Hiragana_Katakana
    (0xff28, 0x01001128), // Zenkaku: Key_Zenkaku
    (0xff29, 0x01001129), // Hankaku: Key_Hankaku
    (0xff2a, 0x0100112a), // Zenkaku_Hankaku: Key_Zenkaku_Hankaku
    (0xff2b, 0x0100112b), // Touroku: Key_Touroku
    (0xff2c, 0x0100112c), // Massyo: Key_Massyo
    (0xff2d, 0x0100112d), // Kana_Lock: Key_Kana_Lock
    (0xff2e, 0x0100112e), // Kana_Shift: Key_Kana_Shift
    (0xff2f, 0x0100112f), // Eisu_Shift: Key_Eisu_Shift
    (0xff30, 0x01001130), // Eisu_toggle: Key_Eisu_toggle
    (0xff37, 0x01001137), // Kanji_Bangou: Key_Codeinput
    (0xff3d, 0x0100113d), // Zen_Koho: Key_MultipleCandidate
    (0xff3e, 0x0100113e)  // Mae_Koho: Key_PreviousCandidate
  ]

  /** Korean keyboards. */
  const KoreanKeys: seq<(nat, int)> := [
    (0xff31, 0x01001131), // Hangul: Key_Hangul
    (0xff32, 0x01001132), // Hangul_Start: Key_Hangul_Start
    (0xff33, 0x01001133), // Hangul_End: Key_Hangul_End
    (0xff34, 0x01001134), // Hangul_Hanja: Key_Hangul_Hanja
    (0xff35, 0x01001135), // Hangul_Jamo: Key_Hangul_Jamo
    (0xff36, 0x01001136), // Hangul_Romaja: Key_Hangul_Romaja
    (0xff37, 0x01001137), // Hangul_Codeinput: Key_Codeinput
    (0xff38, 0x01001138), // Hangul_Jeonja: Key_Hangul_Jeonja
    (0xff39, 0x01001139), // Hangul_Banja: Key_Hangul_Banja
    (0xff3a, 0x0100113a), // Hangul_PreHanja: Key_Hangul_PreHanja
    (0xff3b, 0x0100113b), // Hangul_PostHanja: Key_Hangul_PostHanja
    (0xff3c, 0x0100113c), // Hangul_SingleCandidate: Key_SingleCandidate
    (0xff3d, 0x0100113d), // Hangul_MultipleCandidate: Key_MultipleCandidate
    (0xff3e, 0x0100113e), // Hangul_PreviousCandidate: Key_PreviousCandidate
    (0xff3f, 0x0100113f), // Hangul_Special: Key_Hangul_Special
    (0xff7e, 0x0100117e)  // Hangul_switch: Key_Mode_switch
  ]

  /** `dead_grave` … `dead_horn` paired with `Key_Dead_Grave` …
      `Key_Dead_Horn`: both runs are consecutive. */
  function DeadKeys(n: nat): (r: seq<(nat, int)>)
    ensures |r| == n
    ensures forall i :: 0 <= i < n ==> r[i] == (XkbDeadGrave + i, KeyDeadGrave + i)
  {
    if n == 0 then [] else DeadKeys(n - 1) + [(XkbDeadGrave + (n - 1), KeyDeadGrave + (n - 1))]
  }

  /** Where the dead keys begin. */
  const DeadStart: nat := 106

  /** `KeyTbl`: key symbol and Qt key, pair by pair; the source ends it with
      a 0 pair that stops the search. */
  const KeyTable: seq<(nat, int)> := MiscKeys + (CursorKeys + (ModifierKeys + (KeypadKeys + LaterKeys)))

  /** The sections after the keypad, dead keys last. */
  const LaterKeys: seq<(nat, int)> :=
    ComposeKeys + (ModeSwitchKeys + (JapaneseKeys + (KoreanKeys + DeadKeys(XkbDeadHorn - XkbDeadGrave + 1))))

  /** Entries whose symbol and key are non-zero and whose symbol is no dead key. */
  predicate Ordinary(t: seq<(nat, int)>) {
    forall i :: 0 <= i < |t| ==> t[i].0 != 0 && t[i].1 != 0 && !(XkbDeadGrave <= t[i].0 <= XkbDeadCurrency)
  }

  /** Entries none of whose symbols lies in `lo` … `hi`. */
  predicate Avoids(t: seq<(nat, int)>, lo: nat, hi: nat) {
    forall i :: 0 <= i < |t| ==> !(lo <= t[i].0 <= hi)
  }

  /** Entries whose symbols are pairwise distinct. */
  predicate Distinct(t: seq<(nat, int)>) {
    forall i, j :: 0 <= i < j < |t| ==> t[i].0 != t[j].0
  }

  lemma MiscOrdinary() ensures Ordinary(MiscKeys) { }
  lemma MiscDistinct() ensures Distinct(MiscKeys) { }
  lemma MiscAvoids() ensures Avoids(MiscKeys, 0xff50, 0xff57) && Avoids(MiscKeys, XkbKpSpace, XkbKpEqual) { }

  lemma CursorOrdinary() ensures Ordinary(CursorKeys) { }
  lemma CursorDistinct() ensures Distinct(CursorKeys) { }
  lemma CursorRange()
    ensures Avoids(CursorKeys, XkbKpSpace, XkbKpEqual)
    ensures forall i :: 0 <= i < |CursorKeys| ==> 0xff50 <= CursorKeys[i].0 <= 0xff57
  {
  }

  lemma ModifierOrdinary() ensures Ordinary(ModifierKeys) { }
  lemma ModifierAvoids() ensures Avoids(ModifierKeys, XkbKpSpace, XkbKpEqual) { }

  lemma KeypadOrdinary() ensures Ordinary(KeypadKeys) { }
  lemma KeypadRange()
    ensures forall i :: 0 <= i < |KeypadKeys| ==> XkbKpSpace <= KeypadKeys[i].0 <= XkbKpEqual
  {
  }

  /** The first eleven keypad symbols lie below `KP_Begin`, the rest at or
      above it, and each group is duplicate-free. */
  lemma KeypadDistinct()
    ensures Distinct(KeypadKeys)
  {
    KeypadLowDistinct();
    KeypadHighDistinct();
  }

  lemma KeypadLowDistinct()
    ensures forall i :: 0 <= i < 11 ==> KeypadKeys[i].0 < 0xff9d
    ensures forall i, j :: 0 <= i < j < 11 ==> KeypadKeys[i].0 != KeypadKeys[j].0
  {
  }

  lemma KeypadHighDistinct()
    ensures forall i :: 11 <= i < |KeypadKeys| ==> KeypadKeys[i].0 >= 0xff9d
    ensures forall i, j :: 11 <= i < j < |KeypadKeys| ==> KeypadKeys[i].0 != KeypadKeys[j].0
  {
  }

  lemma ComposeOrdinary() ensures Ordinary(ComposeKeys) { }
  lemma ModeSwitchOrdinary() ensures Ordinary(ModeSwitchKeys) { }
  lemma JapaneseOrdinary() ensures Ordinary(JapaneseKeys) { }
  lemma KoreanOrdinary() ensures Ordinary(KoreanKeys) { }

  /** Non-zero entries, none a dead key before `d`, and from `d` on the
      dead keys in order. */
  predicate Shaped(t: seq<(nat, int)>, d: nat) {
    d <= |t|
    && (forall i :: 0 <= i < |t| ==> t[i].0 != 0 && t[i].1 != 0)
    && (forall i :: 0 <= i < d ==> !(XkbDeadGrave <= t[i].0 <= XkbDeadCurrency))
    && (forall i :: d <= i < |t| ==> t[i] == (XkbDeadGrave + (i - d), KeyDeadGrave + (i - d)))
  }

  lemma Prepend(a: seq<(nat, int)>, t: seq<(nat, int)>, d: nat)
    requires Ordinary(a) && Shaped(t, d)
    ensures Shaped(a + t, |a| + d)
  {
    assert forall i :: |a| <= i < |a + t| ==> (a + t)[i] == t[i - |a|];
  }

  /** The table's symbols are non-zero, so the sentinel only ends it; the
      dead keys come last, and no other entry is a dead key. */
  lemma TableShape()
    ensures |KeyTable| == DeadStart + 19 && Shaped(KeyTable, DeadStart)
  {
    MiscOrdinary(); CursorOrdinary();
    MiddleShaped();
    Prepend(CursorKeys, ModifierKeys + (KeypadKeys + LaterKeys), 86);
    Prepend(MiscKeys, CursorKeys + (ModifierKeys + (KeypadKeys + LaterKeys)), 94);
  }

  lemma MiddleShaped()
    ensures Shaped(ModifierKeys + (KeypadKeys + LaterKeys), 86)
  {
    ModifierOrdinary(); KeypadOrdinary();
    LaterShaped();
    Prepend(KeypadKeys, LaterKeys, 44);
    Prepend(ModifierKeys, KeypadKeys + LaterKeys, 65);
  }

  lemma LaterShaped()
    ensures Shaped(LaterKeys, 44)
  {
    ComposeOrdinary(); ModeSwitchOrdinary(); JapaneseOrdinary(); KoreanOrdinary();
    var d := DeadKeys(XkbDeadHorn - XkbDeadGrave + 1);
    assert Shaped(d, 0);
    Prepend(KoreanKeys, d, 0);
    Prepend(JapaneseKeys, KoreanKeys + d, 16);
    Prepend(ModeSwitchKeys, JapaneseKeys + (KoreanKeys + d), 36);
    Prepend(ComposeKeys, ModeSwitchKeys + (JapaneseKeys + (KoreanKeys + d)), 38);
  }

  /** The index of the first entry for `key`, or the table's length. */
  function FirstEntry(table: seq<(nat, int)>, key: nat): (i: nat)
    ensures i <= |table|
    ensures i < |table| ==> table[i].0 == key
    ensures forall j :: 0 <= j < i ==> table[j].0 != key
  {
    if table == [] then 0
    else if table[0].0 == key then 0
    else 1 + FirstEntry(table[1..], key)
  }

  /** An entry that no earlier entry shadows is the one found. */
  lemma FirstAt(t: seq<(nat, int)>, key: nat, k: nat)
    requires k < |t| && t[k].0 == key
    requires forall j :: 0 <= j < k ==> t[j].0 != key
    ensures FirstEntry(t, key) == k
  {
  }

  /** Entries that avoid a range do not hide what follows them. */
  lemma FirstPast(a: seq<(nat, int)>, b: seq<(nat, int)>, key: nat, lo: nat, hi: nat)
    requires Avoids(a, lo, hi) && lo <= key <= hi
    ensures FirstEntry(a + b, key) == |a| + FirstEntry(b, key)
  {
    var r := FirstEntry(a + b, key);
    var s := FirstEntry(b, key);
    assert r >= |a|;
    assert forall j :: 0 <= j < |b| ==> (a + b)[|a| + j] == b[j];
  }

  /** An entry found in a front part is found in the whole. */
  lemma FirstWithin(a: seq<(nat, int)>, b: seq<(nat, int)>, key: nat)
    requires FirstEntry(a, key) < |a|
    ensures FirstEntry(a + b, key) == FirstEntry(a, key)
  {
    var i := FirstEntry(a, key);
    assert (a + b)[i] == a[i];
    FirstAt(a + b, key, i);
  }

  /** `keysymToQtKey`: the Qt key of the first entry whose symbol matches,
      or 0. The search stops at the sentinel, so symbol 0 finds nothing. */
  method KeysymToQtKey(key: nat) returns (code: int)
    ensures key != 0 ==> code == (if FirstEntry(KeyTable, key) < |KeyTable| then KeyTable[FirstEntry(KeyTable, key)].1 else 0)
    ensures key == 0 ==> code == 0
  {
    TableShape();
    code := Search(KeyTable + [(0, 0)], key);
  }

  /** The search of `keysymToQtKey` over a table ended by a 0 pair. */
  method Search(table: seq<(nat, int)>, key: nat) returns (code: int)
    requires 0 < |table| && table[|table| - 1] == (0, 0)
    requires forall i :: 0 <= i < |table| - 1 ==> table[i].0 != 0
    ensures var body := table[..|table| - 1]; var i := FirstEntry(body, key);
      key != 0 ==> code == (if i < |body| then body[i].1 else 0)
    ensures key == 0 ==> code == 0
  {
    ghost var body := table[..|table| - 1];
    code := 0;
    var i := 0;
    while table[i].0 != 0
      invariant 0 <= i <= |body|
      invariant forall j :: 0 <= j < i ==> body[j].0 != key
      decreases |body| - i
    {
      if key == table[i].0 {
        code := table[i].1;
        FirstAt(body, key, i);
        return;
      }
      i := i + 1;
    }
  }

  /** The lookup as a function, for use in the translation below. */
  function Lookup(key: nat): (code: int)
    ensures code != 0 <==> exists i :: 0 <= i < |KeyTable| && KeyTable[i].0 == key
  {
    TableShape();
    var i := FirstEntry(KeyTable, key);
    if i < |KeyTable| then KeyTable[i].1 else 0
  }

  /** The method's answer is the function's, for every symbol. */
  method LookupAgrees(key: nat) returns (code: int)
    ensures code == Lookup(key)
  {
    code := KeysymToQtKey(key);
    TableShape();
  }

  /** Every miscellaneous key gives its own entry. */
  lemma MiscEntry(i: nat)
    requires i < |MiscKeys|
    ensures Lookup(MiscKeys[i].0) == MiscKeys[i].1
  {
    MiscDistinct();
    var key := MiscKeys[i].0;
    FirstAt(MiscKeys, key, i);
    FirstWithin(MiscKeys, CursorKeys + (ModifierKeys + (KeypadKeys + LaterKeys)), key);
  }

  /** Every cursor key gives its own entry. */
  lemma CursorEntry(i: nat)
    requires i < |CursorKeys|
    ensures Lookup(CursorKeys[i].0) == CursorKeys[i].1
  {
    MiscAvoids(); CursorDistinct(); CursorRange();
    var key := CursorKeys[i].0;
    FirstPast(MiscKeys, CursorKeys + (ModifierKeys + (KeypadKeys + LaterKeys)), key, 0xff50, 0xff57);
    FirstAt(CursorKeys, key, i);
    FirstWithin(CursorKeys, ModifierKeys + (KeypadKeys + LaterKeys), key);
  }

  /** Every keypad key in the table gives its own entry. */
  lemma KeypadEntry(i: nat)
    requires i < |KeypadKeys|
    ensures Lookup(KeypadKeys[i].0) == KeypadKeys[i].1
  {
    MiscAvoids(); CursorRange(); ModifierAvoids(); KeypadRange(); KeypadDistinct();
    var key := KeypadKeys[i].0;
    FirstPast(MiscKeys, CursorKeys + (ModifierKeys + (KeypadKeys + LaterKeys)), key, XkbKpSpace, XkbKpEqual);
    FirstPast(CursorKeys, ModifierKeys + (KeypadKeys + LaterKeys), key, XkbKpSpace, XkbKpEqual);
    FirstPast(ModifierKeys, KeypadKeys + LaterKeys, key, XkbKpSpace, XkbKpEqual);
    FirstAt(KeypadKeys, key, i);
    FirstWithin(KeypadKeys, LaterKeys, key);
  }

  /** Two symbols share a Qt key: Clear is taken for Delete. */
  lemma ClearIsDelete()
    ensures Lookup(XkbClear) == Lookup(XkbDelete) == KeyDelete
    ensures Lookup(XkbEscape) == KeyEscape && Lookup(XkbIsoLeftTab) == KeyBacktab
  {
    assert MiscKeys[0] == (XkbEscape, KeyEscape) && MiscKeys[2] == (XkbIsoLeftTab, KeyBacktab);
    assert MiscKeys[6] == (XkbDelete, KeyDelete) && MiscKeys[7] == (XkbClear, KeyDelete);
    MiscEntry(6);
    MiscEntry(7);
    MiscEntry(0);
    MiscEntry(2);
  }

  // ---------------------------------------------------------------------
  // Keys

  datatype QtModifier = ShiftModifier | ControlModifier | AltModifier | MetaModifier | KeypadModifier | GroupSwitchModifier

  /** The C library's `isprint` and `toupper` in the default locale. */
  predicate Printable(c: nat) {
    0x20 <= c <= 0x7e
  }

  function ToUpperAscii(c: nat): (r: nat)
    ensures 'a' as nat <= c <= 'z' as nat ==> r == c - 32
    ensures !('a' as nat <= c <= 'z' as nat) ==> r == c
  {
    if 'a' as nat <= c <= 'z' as nat then c - 32 else c
  }

  /** The result of `xkbToQtKey`: its answer, the Qt key, the modifiers. */
  datatype Translated = Translated(ok: bool, qtKey: int, modifiers: set<QtModifier>)

  /** `xkbToQtKey`. `unicode` is the character the key produces (0 for
      none); `upper` stands for `QChar::toUpper` on a 16-bit code unit. */
  function XkbToQtKey(sym: nat, unicode: nat, modifiers: set<QtModifier>, upper: nat -> nat): (r: Translated)
    ensures r.ok <==> r.qtKey != 0
    ensures modifiers <= r.modifiers && r.modifiers - modifiers <= {KeypadModifier}
    ensures r.modifiers != modifiers <==> XkbKpSpace <= sym <= XkbKp9 && KeypadModifier !in modifiers
    ensures sym < 256 ==> r.qtKey == (if Printable(sym) then ToUpperAscii(sym) else 0)
    ensures XkbF1 <= sym <= XkbF35 ==> KeyF1 <= r.qtKey <= KeyF35 && r.qtKey - KeyF1 == sym - XkbF1
    ensures XkbKp0 <= sym <= XkbKp9 ==> r.qtKey == Key0 + (sym - XkbKp0)
    ensures XkbKpSpace <= sym < XkbKp0 ==> r.qtKey == Lookup(sym)
  {
    if sym < 256 then
      var k := if Printable(sym) then ToUpperAscii(sym) else 0;
      Translated(k != 0, k, modifiers)
    else if XkbF1 <= sym <= XkbF35 then
      Translated(true, KeyF1 + (sym - XkbF1), modifiers)
    else if XkbKpSpace <= sym <= XkbKp9 then
      var k := if sym >= XkbKp0 then Key0 + (sym - XkbKp0) else Lookup(sym);
      Translated(k != 0, k, modifiers + {KeypadModifier})
    else if unicode != 0 && unicode > 0x1f && unicode != 0x7f && !(XkbDeadGrave <= sym <= XkbDeadCurrency) then
      var k := upper(unicode % 0x1_0000);
      Translated(k != 0, k, modifiers)
    else
      var k := Lookup(sym);
      Translated(k != 0, k, modifiers)
  }

  /** A symbol outside the four ranges that yields a printable character is
      translated through the upper-case mapping; one that yields none goes
      through the table; a dead key always goes through the table. */
  lemma CharacterOrTable(sym: nat, unicode: nat, m: set<QtModifier>, upper: nat -> nat)
    requires 256 <= sym && !(XkbF1 <= sym <= XkbF35) && !(XkbKpSpace <= sym <= XkbKp9)
    ensures unicode > 0x1f && unicode != 0x7f && !(XkbDeadGrave <= sym <= XkbDeadCurrency)
        ==> XkbToQtKey(sym, unicode, m, upper).qtKey == upper(unicode % 0x1_0000)
    ensures unicode <= 0x1f || unicode == 0x7f || XkbDeadGrave <= sym <= XkbDeadCurrency
        ==> XkbToQtKey(sym, unicode, m, upper) == Translated(Lookup(sym) != 0, Lookup(sym), m)
  {
  }

  /** The keypad's navigation keys and its Tab, paired with the main keys
      they stand for. */
  const KeypadNavigation: seq<(nat, nat)> := [
    (0xff95, 0xff50), (0xff96, 0xff51), (0xff97, 0xff52), (0xff98, 0xff53), // Home, Left, Up, Right
    (0xff99, 0xff54), (0xff9a, 0xff55), (0xff9b, 0xff56), (0xff9c, 0xff57), // Down, Prior, Next, End
    (0xff9e, 0xff63), (0xff9f, XkbDelete), (0xff89, 0xff09)                 // Insert, Delete, Tab
  ]

  /** A keypad navigation key gives the Qt key of the main key it stands
      for, told apart only by the keypad modifier. */
  lemma KeypadLikeMain(i: nat, unicode: nat, m: set<QtModifier>, upper: nat -> nat)
    requires i < |KeypadNavigation|
    ensures var (pad, main) := KeypadNavigation[i];
      XkbToQtKey(pad, unicode, m, upper) == Translated(true, Lookup(main), m + {KeypadModifier})
      && XkbToQtKey(main, 0, m, upper) == Translated(true, Lookup(main), m)
  {
    NavigationLookup(i);
    NavigationRanges(i);
  }

  /** The pad keys lie in the keypad range before the digits; the main keys
      lie in none of the ranges `xkbToQtKey` treats apart. */
  lemma NavigationRanges(i: nat)
    requires i < |KeypadNavigation|
    ensures XkbKpSpace <= KeypadNavigation[i].0 < XkbKp0
    ensures var main := KeypadNavigation[i].1;
      256 <= main && !(XkbF1 <= main <= XkbF35) && !(XkbKpSpace <= main <= XkbKp9)
  {
  }

  lemma NavigationLookup(i: nat)
    requires i < |KeypadNavigation|
    ensures Lookup(KeypadNavigation[i].0) == Lookup(KeypadNavigation[i].1) != 0
  {
    // each pair as found in the keypad section and in the cursor or
    // miscellaneous section
    if i == 0 {
      assert KeypadNavigation[i] == (KeypadKeys[3].0, CursorKeys[0].0);
      KeypadEntry(3); CursorEntry(0);
      assert KeypadKeys[3].1 == CursorKeys[0].1 != 0;
    } else if i == 1 {
      assert KeypadNavigation[i] == (KeypadKeys[4].0, CursorKeys[2].0);
      KeypadEntry(4); CursorEntry(2);
      assert KeypadKeys[4].1 == CursorKeys[2].1 != 0;
    } else if i == 2 {
      assert KeypadNavigation[i] == (KeypadKeys[5].0, CursorKeys[3].0);
      KeypadEntry(5); CursorEntry(3);
      assert KeypadKeys[5].1 == CursorKeys[3].1 != 0;
    } else if i == 3 {
      assert KeypadNavigation[i] == (KeypadKeys[6].0, CursorKeys[4].0);
      KeypadEntry(6); CursorEntry(4);
      assert KeypadKeys[6].1 == CursorKeys[4].1 != 0;
    } else if i == 4 {
      assert KeypadNavigation[i] == (KeypadKeys[7].0, CursorKeys[5].0);
      KeypadEntry(7); CursorEntry(5);
      assert KeypadKeys[7].1 == CursorKeys[5].1 != 0;
    } else if i == 5 {
      assert KeypadNavigation[i] == (KeypadKeys[8].0, CursorKeys[6].0);
      KeypadEntry(8); CursorEntry(6);
      assert KeypadKeys[8].1 == CursorKeys[6].1 != 0;
    } else if i == 6 {
      assert KeypadNavigation[i] == (KeypadKeys[9].0, CursorKeys[7].0);
      KeypadEntry(9); CursorEntry(7);
      assert KeypadKeys[9].1 == CursorKeys[7].1 != 0;
    } else if i == 7 {
      assert KeypadNavigation[i] == (KeypadKeys[10].0, CursorKeys[1].0);
      KeypadEntry(10); CursorEntry(1);
      assert KeypadKeys[10].1 == CursorKeys[1].1 != 0;
    } else if i == 8 {
      assert KeypadNavigation[i] == (KeypadKeys[12].0, MiscKeys[5].0);
      KeypadEntry(12); MiscEntry(5);
      assert KeypadKeys[12].1 == MiscKeys[5].1 != 0;
    } else if i == 9 {
      assert KeypadNavigation[i] == (KeypadKeys[13].0, MiscKeys[6].0);
      KeypadEntry(13); MiscEntry(6);
      assert KeypadKeys[13].1 == MiscKeys[6].1 != 0;
    } else {
      assert KeypadNavigation[i] == (KeypadKeys[1].0, MiscKeys[1].0);
      KeypadEntry(1); MiscEntry(1);
      assert KeypadKeys[1].1 == MiscKeys[1].1 != 0;
    }
  }

  /** `KP_Equal` falls outside the keypad range, so unlike the other keypad
      keys it is translated without the keypad modifier. */
  lemma KeypadEqualUnmarked(m: set<QtModifier>, upper: nat -> nat)
    ensures XkbToQtKey(XkbKpEqual, 0, m, upper) == Translated(true, KeyEqual, m)
  {
    KeypadEntry(14);
  }

  /** The keypad's `*`, `+`, `,`, `-`, `.` and `/` give the ASCII keys of
      those characters, marked with the keypad modifier. */
  lemma KeypadOperators(sym: nat, unicode: nat, m: set<QtModifier>, upper: nat -> nat)
    requires XkbKpMultiply <= sym <= XkbKpDivide
    ensures XkbToQtKey(sym, unicode, m, upper) == Translated(true, KeyAsterisk + (sym - XkbKpMultiply), m + {KeypadModifier})
  {
    KeypadEntry(15 + (sym - XkbKpMultiply));
  }

  /** A dead key the table lists gives its Qt dead key, whatever character
      it would produce. */
  lemma DeadKeysTranslate(sym: nat, unicode: nat, m: set<QtModifier>, upper: nat -> nat)
    requires XkbDeadGrave <= sym <= XkbDeadHorn
    ensures XkbToQtKey(sym, unicode, m, upper) == Translated(true, KeyDeadGrave + (sym - XkbDeadGrave), m)
  {
    TableShape();
    FirstAt(KeyTable, sym, DeadStart + (sym - XkbDeadGrave));
  }

  /** A dead key past `dead_horn` is missing from the table and fails to
      translate, even when it would produce a character. */
  lemma UnlistedDeadKeysRefused(sym: nat, unicode: nat, m: set<QtModifier>, upper: nat -> nat)
    requires XkbDeadHorn < sym <= XkbDeadCurrency
    ensures XkbToQtKey(sym, unicode, m, upper) == Translated(false, 0, m)
  {
    TableShape();
  }

  /** Lower- and upper-case letters are the same Qt key. */
  lemma LettersCaseInsensitive(c: nat, m: set<QtModifier>, upper: nat -> nat)
    requires 'a' as nat <= c <= 'z' as nat
    ensures XkbToQtKey(c, 0, m, upper) == XkbToQtKey(c - 32, 0, m, upper)
    ensures XkbToQtKey(c, 0, m, upper).ok
  {
  }

  // ---------------------------------------------------------------------
  // Modifiers

  /** The X11 core protocol's modifier mask bits. */
  const MaskShift: bv32 := 1
  const MaskLock: bv32 := 2
  const MaskControl: bv32 := 4
  const MaskMod1: bv32 := 8
  const MaskMod2: bv32 := 16
  const MaskMod3: bv32 := 32
  const MaskMod4: bv32 := 64
  const MaskMod5: bv32 := 128

  predicate Has(mask: bv32, bit: bv32) {
    mask & bit != 0
  }

  /** `r`, with `q` added when `c` holds: one `|=` of the source. */
  function With(r: set<QtModifier>, c: bool, q: QtModifier): (s: set<QtModifier>)
    ensures forall p :: p in s <==> p in r || (c && p == q)
  {
    if c then r + {q} else r
  }

  /** `xkbToQtModifers`: Shift, Control, Alt (Mod1), Meta (Mod4); Mod3 and
      Mod5 both give the group switch, and Mod2 (NumLock) and Lock both give
      the keypad modifier. */
  function XkbToQtModifiers(mask: bv32): (r: set<QtModifier>)
    ensures ShiftModifier in r <==> Has(mask, MaskShift)
    ensures ControlModifier in r <==> Has(mask, MaskControl)
    ensures AltModifier in r <==> Has(mask, MaskMod1)
    ensures MetaModifier in r <==> Has(mask, MaskMod4)
    ensures GroupSwitchModifier in r <==> Has(mask, MaskMod3) || Has(mask, MaskMod5)
    ensures KeypadModifier in r <==> Has(mask, MaskMod2) || Has(mask, MaskLock)
  {
    var r := {};
    var r := With(r, Has(mask, MaskShift), ShiftModifier);
    var r := With(r, Has(mask, MaskControl), ControlModifier);
    var r := With(r, Has(mask, MaskMod1), AltModifier);
    var r := With(r, Has(mask, MaskMod2), KeypadModifier);
    var r := With(r, Has(mask, MaskMod3), GroupSwitchModifier);
    var r := With(r, Has(mask, MaskMod4), MetaModifier);
    var r := With(r, Has(mask, MaskMod5), GroupSwitchModifier);
    With(r, Has(mask, MaskLock), KeypadModifier)
  }

  /** Only the eight core modifier bits matter. */
  lemma ModifiersLowByte(mask: bv32)
    ensures XkbToQtModifiers(mask) == XkbToQtModifiers(mask & 0xff)
  {
  }

  /** Caps Lock and NumLock are not told apart, nor Mod3 and AltGr. */
  lemma ModifierAliases()
    ensures XkbToQtModifiers(MaskLock) == XkbToQtModifiers(MaskMod2) == {KeypadModifier}
    ensures XkbToQtModifiers(MaskMod3) == XkbToQtModifiers(MaskMod5) == {GroupSwitchModifier}
    ensures XkbToQtModifiers(0) == {}
  {
  }
}
