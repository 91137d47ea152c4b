/** The menu as a user meets it: which button is which key, where each key leads from each page, and what it does to
    the parameters. Keys are given by the masks the source assigns: ENTER 1, DOWN 2, MENU 4, UP 8. */
module Menu {
  import opened Display
  import opened Pages
  import opened Board
  import opened Moves
  import opened Screens
  import Keys

  /** The four buttons, in the order of their pins, are the four masks, and masks of buttons held together add up. */
  lemma ButtonsToMask(b0: bool, b1: bool, b2: bool, b3: bool)
    ensures Keys.MaskOf([b0, b1, b2, b3])
         == (if b0 then 1 else 0) + (if b1 then 2 else 0) + (if b2 then 4 else 0) + (if b3 then 8 else 0)
  {
    MaskSnoc([], b0, 1);
    MaskSnoc([b0], b1, 2);
    MaskSnoc([b0, b1], b2, 4);
    MaskSnoc([b0, b1, b2], b3, 8);
    assert [] + [b0] == [b0] && [b0] + [b1] == [b0, b1];
    assert [b0, b1] + [b2] == [b0, b1, b2] && [b0, b1, b2] + [b3] == [b0, b1, b2, b3];
  }

  lemma MaskSnoc(levels: seq<bool>, level: bool, bit: nat)
    requires bit == Keys.Bit(|levels|)
    ensures Keys.MaskOf(levels + [level]) == Keys.MaskOf(levels) + if level then bit else 0
  {
    assert (levels + [level])[..|levels|] == levels;
  }

  /** ENTER goes forward: to the main page, to the settings with the cursor on top, and from each settings entry to the
      page that shows what the entry names. */
  lemma EnterOpens(f: Fonts, s: Bytes, page: nat, p: Params)
    requires FontsOk(f) && |s| == CELLS && page <= SET_5 && PageShows(f, s, NextPage(page, 1), p)
    ensures page == WELCOME ==> ShowsText(f, s, 0, 0, "客厅")
    ensures page == MAIN ==> UpperContents(f, s) && ShowsCursor(f, s, 3, 0)
    ensures page == SET_1 ==> SensorContents(f, s, p) && ShowsCursor(f, s, 3, 0)
    ensures page == SET_1 + 1 ==> OledContents(f, s, p) && ShowsCursor(f, s, 2, 0)
    ensures page == SET_3 ==> ShowsText(f, s, 3, 2, "版本号")
    ensures page == SET_4 ==> ShowsText(f, s, 3, 2, "确认恢复默认")
    ensures page == SET_5 ==> ShowsText(f, s, 3, 2, "组网中")
  {
    hide FontsOk, ShowsText, ShowsCursor, ShowsAscii, UpperContents, LowerContents, SensorContents, OledContents;
  }

  /** ENTER twice: from the last three settings entries and back to them; from a parameter through the question whether
      to change it and back to the first parameter of its group. */
  lemma EnterTwice(f: Fonts, s: Bytes, page: nat, p: Params)
    requires FontsOk(f) && |s| == CELLS && SET_3 <= page <= OLED_2
    ensures page <= SET_5 ==> NextPage(NextPage(page, 1), 1) == page
    ensures SENSOR_1 <= page <= SENSOR_3 ==> NextPage(NextPage(page, 1), 1) == SENSOR_1
    ensures OLED_1 <= page ==> NextPage(NextPage(page, 1), 1) == OLED_1
    ensures SENSOR_1 <= page && PageShows(f, s, NextPage(page, 1), p) ==> ShowsText(f, s, 3, 2, "确定更改参数")
  {
    hide FontsOk, ShowsText, ShowsCursor, ShowsAscii, UpperContents, LowerContents, SensorContents, OledContents;
  }

  /** UP and DOWN move only in the settings and, UP alone, among the parameters. */
  lemma ElsewhereNothingMoves(page: nat, key: nat)
    requires page < PAGE_COUNT && !(SET_1 <= page <= OLED_2) && (key == 2 || key == 8)
    ensures NextPage(page, key) == page
  {
  }

  lemma UnknownKeys(b: State, key: nat)
    requires b.current < PAGE_COUNT && key !in {1, 2, 4, 8}
    ensures Dispatch(b, key).current == b.current && Dispatch(b, key).params == b.params
    ensures Dispatch(b, key).addFlag == b.addFlag
  {
  }

  /** MENU leads to the main page from everywhere; from a parameter or its question it also sets every parameter to
      zero. */
  lemma MenuGoesHome(b: State)
    requires b.current < PAGE_COUNT
    ensures Dispatch(b, 4).current == MAIN
    ensures Dispatch(b, 4).params ==
            if SENSOR_1 <= b.current <= OLED_2 || b.current == SENSOR_CONFIRM || b.current == OLED_CONFIRM
            then Params(0, 0, 0, 0, 0) else b.params
  {
    hide Table;
  }

  /** Only confirming the factory question sets parameters by ENTER. */
  lemma FactoryValues(b: State)
    requires b.current < PAGE_COUNT
    ensures b.current != FACTORY_CONFIRM ==> Dispatch(b, 1).params == b.params
    ensures b.current == FACTORY_CONFIRM ==>
              var p := Dispatch(b, 1).params;
              && p.distance == 100 && p.sensitivity == 50 && p.power == 100 && p.light == 0xEF && p.closeTime == 30
              && Dispatch(b, 1).current == SET_4
  {
  }

  /** An increment raises one parameter by one, back to zero at its own limit, and leaves the other four. */
  lemma IncrementsOne(p: Params, page: nat)
    requires Bounded(p) && SENSOR_1 <= page <= OLED_2
    ensures var q := Increment(p, page);
            && q.distance == (if page == SENSOR_1 then (p.distance + 1) % 200 else p.distance)
            && q.sensitivity == (if page == SENSOR_2 then (p.sensitivity + 1) % 100 else p.sensitivity)
            && q.power == (if page == SENSOR_3 then (p.power + 1) % 200 else p.power)
            && q.light == (if page == OLED_1 then (p.light + 1) % 255 else p.light)
            && q.closeTime == (if page == OLED_2 then (p.closeTime + 1) % 999 else p.closeTime)
  {
  }
}
