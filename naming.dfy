/**
  The archive's name: the appliance name, "-config-", a UTC timestamp and
  ".tar". The timestamp is given as broken-down UTC fields; the two
  programs write it with different `time.Time.Format` layouts.
*/
module Naming {
  import opened Wrappers
  import opened GoStrings
  import opened Decimal
  import opened Settings

  /** A UTC wall-clock reading, broken down as `time.Time` reports it. */
  datatype DateTime = DateTime(year: int, month: nat, day: nat, hour: nat, minute: nat, second: nat)

  /** The ranges `time.Time` keeps its fields in. */
  predicate ValidTime(t: DateTime) {
    && 1 <= t.month <= 12 && 1 <= t.day <= 31
    && t.hour < 24 && t.minute < 60 && t.second < 60
  }

  /** A year `Format` writes as exactly four digits. */
  predicate FourDigitYear(t: DateTime) {
    0 <= t.year <= 9999
  }

  /** The "2006" element: at least four digits, with a '-' before a negative year. */
  function YearText(year: int): string {
    if year < 0 then "-" + Padded(-year, 4) else Padded(year, 4)
  }

  /** A year from 0 to 9999 is written as four digits denoting it; a negative one starts with '-'. */
  lemma YearTextFacts(year: int)
    ensures 0 <= year <= 9999 ==> |YearText(year)| == 4 && AllDigits(YearText(year)) && ValueOf(YearText(year)) == year
    ensures year < 0 ==> |YearText(year)| >= 5 && YearText(year)[0] == '-'
  {
    PaddedFacts(if year < 0 then -year else year, 4);
  }

  /** A two-digit element ("01", "02", "15", "04", "05"). */
  function TwoDigits(n: nat): string {
    Padded(n, 2)
  }

  lemma TwoDigitsFacts(n: nat)
    ensures AllDigits(TwoDigits(n)) && ValueOf(TwoDigits(n)) == n
    ensures n < 100 ==> |TwoDigits(n)| == 2
  {
    PaddedFacts(n, 2);
  }

  /** An element of a `Format` layout after the year: a two-digit number or a literal separator. */
  datatype Element = TwoDigitField | Separator(c: char)

  /**
    The layout after the year: "0102-150405" in containers/truenas_backup,
    "-01-02_15-04-05" in containers/truenas_backup_to_s3.
  */
  function Layout(v: Variant): seq<Element> {
    if v.TrueNasBackup? then
      [TwoDigitField, TwoDigitField, Separator('-'), TwoDigitField, TwoDigitField, TwoDigitField]
    else
      [Separator('-'), TwoDigitField, Separator('-'), TwoDigitField, Separator('_'),
       TwoDigitField, Separator('-'), TwoDigitField, Separator('-'), TwoDigitField]
  }

  function FieldCount(layout: seq<Element>): nat {
    if layout == [] then 0 else (if layout[0].TwoDigitField? then 1 else 0) + FieldCount(layout[1..])
  }

  function Width(layout: seq<Element>): nat {
    if layout == [] then 0 else (if layout[0].TwoDigitField? then 2 else 1) + Width(layout[1..])
  }

  /** Writes `texts` into the layout's number fields, in order, between its separators. */
  function Render(layout: seq<Element>, texts: seq<string>): string {
    if layout == [] then []
    else if layout[0].TwoDigitField? then
      if texts == [] then Render(layout[1..], texts) else texts[0] + Render(layout[1..], texts[1..])
    else [layout[0].c] + Render(layout[1..], texts)
  }

  /** Reads the layout's number fields back, or None when `s` does not follow the layout. */
  function Scan(layout: seq<Element>, s: string): (r: Option<seq<nat>>)
    ensures r.Some? ==> |r.value| == FieldCount(layout) && |s| == Width(layout)
  {
    if layout == [] then (if s == [] then Some([]) else None)
    else if layout[0].TwoDigitField? then
      if |s| < 2 || !AllDigits(s[..2]) then None
      else
        var rest := Scan(layout[1..], s[2..]);
        if rest.None? then None else Some([ValueOf(s[..2])] + rest.value)
    else if s == [] || s[0] != layout[0].c then None
    else Scan(layout[1..], s[1..])
  }

  /** Scanning what `Render` wrote gives back the numbers, when each text is two digits. */
  lemma {:induction false} ScanRender(layout: seq<Element>, texts: seq<string>)
    requires |texts| == FieldCount(layout)
    requires forall i :: 0 <= i < |texts| ==> |texts[i]| == 2 && AllDigits(texts[i])
    ensures Scan(layout, Render(layout, texts)).Some?
    ensures forall i :: 0 <= i < |texts| ==> Scan(layout, Render(layout, texts)).value[i] == ValueOf(texts[i])
  {
    if layout != [] {
      var s := Render(layout, texts);
      if layout[0].TwoDigitField? {
        var rest := Render(layout[1..], texts[1..]);
        assert s[..2] == texts[0] && s[2..] == rest;
        ScanRender(layout[1..], texts[1..]);
      } else {
        assert s[1..] == Render(layout[1..], texts);
        ScanRender(layout[1..], texts);
      }
    }
  }

  /** Both layouts hold the five fields month, day, hour, minute, second. */
  lemma {:induction false} LayoutShape(v: Variant)
    ensures FieldCount(Layout(v)) == 5
    ensures Width(Layout(v)) == if v.TrueNasBackup? then 11 else 15
  {
    var l := Layout(v);
    if v.TrueNasBackup? {
      assert l[6..] == [];
      assert l[5..][1..] == l[6..];
      assert FieldCount(l[5..]) == 1 && Width(l[5..]) == 2;
      assert l[4..][1..] == l[5..];
      assert FieldCount(l[4..]) == 2 && Width(l[4..]) == 4;
      assert l[3..][1..] == l[4..];
      assert FieldCount(l[3..]) == 3 && Width(l[3..]) == 6;
      assert l[2..][1..] == l[3..];
      assert FieldCount(l[2..]) == 3 && Width(l[2..]) == 7;
      assert l[1..][1..] == l[2..];
      assert FieldCount(l[1..]) == 4 && Width(l[1..]) == 9;
      assert l[0..][1..] == l[1..];
      assert FieldCount(l[0..]) == 5 && Width(l[0..]) == 11;
    } else {
      assert l[10..] == [];
      assert l[9..][1..] == l[10..];
      assert FieldCount(l[9..]) == 1 && Width(l[9..]) == 2;
      assert l[8..][1..] == l[9..];
      assert FieldCount(l[8..]) == 1 && Width(l[8..]) == 3;
      assert l[7..][1..] == l[8..];
      assert FieldCount(l[7..]) == 2 && Width(l[7..]) == 5;
      assert l[6..][1..] == l[7..];
      assert FieldCount(l[6..]) == 2 && Width(l[6..]) == 6;
      assert l[5..][1..] == l[6..];
      assert FieldCount(l[5..]) == 3 && Width(l[5..]) == 8;
      assert l[4..][1..] == l[5..];
      assert FieldCount(l[4..]) == 3 && Width(l[4..]) == 9;
      assert l[3..][1..] == l[4..];
      assert FieldCount(l[3..]) == 4 && Width(l[3..]) == 11;
      assert l[2..][1..] == l[3..];
      assert FieldCount(l[2..]) == 4 && Width(l[2..]) == 12;
      assert l[1..][1..] == l[2..];
      assert FieldCount(l[1..]) == 5 && Width(l[1..]) == 14;
      assert l[0..][1..] == l[1..];
      assert FieldCount(l[0..]) == 5 && Width(l[0..]) == 15;
    }
    assert l[0..] == l;
  }

  /** The fields written after the year, in layout order. */
  function Fields(t: DateTime): seq<string> {
    [TwoDigits(t.month), TwoDigits(t.day), TwoDigits(t.hour), TwoDigits(t.minute), TwoDigits(t.second)]
  }

  /**
    The timestamp: layout "20060102-150405" in containers/truenas_backup,
    "2006-01-02_15-04-05" in containers/truenas_backup_to_s3.
  */
  function Stamp(v: Variant, t: DateTime): string {
    YearText(t.year) + Render(Layout(v), Fields(t))
  }

  /** The width of a timestamp with a four-digit year. */
  function StampWidth(v: Variant): nat {
    4 + Width(Layout(v))
  }

  /**
    Reads a timestamp with a four-digit year back into its fields: the
    inverse of `Stamp`.
  */
  function ParseStamp(v: Variant, s: string): (r: Option<DateTime>)
    ensures r.Some? ==> |s| == StampWidth(v) && FourDigitYear(r.value)
  {
    if |s| < 4 || !AllDigits(s[..4]) then None
    else
      LayoutShape(v);
      var fields := Scan(Layout(v), s[4..]);
      if fields.None? then None
      else
        assert ValueOf(s[..4]) < 10000 by { ValueBound(s[..4]); }
        var f := fields.value;
        Some(DateTime(ValueOf(s[..4]), f[0], f[1], f[2], f[3], f[4]))
  }

  /** A digit string of length k denotes less than 10^k. */
  lemma {:induction false} ValueBound(s: string)
    requires AllDigits(s)
    ensures ValueOf(s) < Pow10(|s|)
  {
    if s != [] {
      var init := s[..|s| - 1];
      assert AllDigits(init) by {
        assert forall i :: 0 <= i < |init| ==> init[i] == s[i];
      }
      ValueBound(init);
    }
  }

  /** Five two-digit fields are scanned back from what `Render` wrote. */
  lemma ScanFields(layout: seq<Element>, texts: seq<string>)
    requires FieldCount(layout) == 5 && |texts| == 5
    requires forall i :: 0 <= i < 5 ==> |texts[i]| == 2 && AllDigits(texts[i])
    ensures Scan(layout, Render(layout, texts)) ==
      Some([ValueOf(texts[0]), ValueOf(texts[1]), ValueOf(texts[2]), ValueOf(texts[3]), ValueOf(texts[4])])
  {
    ScanRender(layout, texts);
    var r := Scan(layout, Render(layout, texts)).value;
    assert r == [ValueOf(texts[0]), ValueOf(texts[1]), ValueOf(texts[2]), ValueOf(texts[3]), ValueOf(texts[4])];
  }

  /** Each field of a valid reading is written as two digits denoting it. */
  lemma FieldsFacts(t: DateTime)
    requires ValidTime(t)
    ensures |Fields(t)| == 5
    ensures forall i :: 0 <= i < 5 ==> |Fields(t)[i]| == 2 && AllDigits(Fields(t)[i])
    ensures ValueOf(Fields(t)[0]) == t.month && ValueOf(Fields(t)[1]) == t.day
    ensures ValueOf(Fields(t)[2]) == t.hour && ValueOf(Fields(t)[3]) == t.minute && ValueOf(Fields(t)[4]) == t.second
  {
    TwoDigitsFacts(t.month);
    TwoDigitsFacts(t.day);
    TwoDigitsFacts(t.hour);
    TwoDigitsFacts(t.minute);
    TwoDigitsFacts(t.second);
  }

  /** A timestamp with a four-digit year splits into the year and the rest of the layout. */
  lemma StampSplit(v: Variant, t: DateTime)
    requires FourDigitYear(t)
    ensures |YearText(t.year)| == 4 && AllDigits(YearText(t.year)) && ValueOf(YearText(t.year)) == t.year
    ensures Stamp(v, t)[..4] == YearText(t.year) && Stamp(v, t)[4..] == Render(Layout(v), Fields(t))
  {
    YearTextFacts(t.year);
  }

  /** Every field of a valid reading with a four-digit year is read back from its timestamp. */
  lemma StampRoundTrip(v: Variant, t: DateTime)
    requires ValidTime(t) && FourDigitYear(t)
    ensures ParseStamp(v, Stamp(v, t)) == Some(t)
  {
    StampSplit(v, t);
    LayoutShape(v);
    FieldsFacts(t);
    ScanFields(Layout(v), Fields(t));
  }

  /** Two valid readings with four-digit years give the same timestamp only if they are equal. */
  lemma StampInjective(v: Variant, t1: DateTime, t2: DateTime)
    requires ValidTime(t1) && FourDigitYear(t1) && ValidTime(t2) && FourDigitYear(t2)
    ensures Stamp(v, t1) == Stamp(v, t2) <==> t1 == t2
  {
    StampRoundTrip(v, t1);
    StampRoundTrip(v, t2);
  }

  /** A timestamp with a four-digit year is 15 characters in one layout and 19 in the other. */
  lemma StampLength(v: Variant, t: DateTime)
    requires ValidTime(t) && FourDigitYear(t)
    ensures |Stamp(v, t)| == (if v.TrueNasBackup? then 15 else 19)
  {
    StampRoundTrip(v, t);
  }

  /** The archive name `<name>-config-<timestamp>.tar`, built after the backup succeeds. */
  function Filename(v: Variant, name: string, t: DateTime): (f: string)
    ensures HasPrefix(f, name + "-config-") && HasSuffix(f, ".tar")
  {
    var head := name + "-config-";
    var stamp := Stamp(v, t);
    var f := head + stamp + ".tar";
    assert f[..|head|] == head;
    assert f[|f| - 4..] == ".tar";
    f
  }

  /** The timestamp sits between the fixed parts, so the name determines the reading. */
  lemma FilenameInjective(v: Variant, name: string, t1: DateTime, t2: DateTime)
    requires ValidTime(t1) && FourDigitYear(t1) && ValidTime(t2) && FourDigitYear(t2)
    ensures Filename(v, name, t1) == Filename(v, name, t2) <==> t1 == t2
  {
    var head := name + "-config-";
    var s1 := Stamp(v, t1);
    var s2 := Stamp(v, t2);
    StampRoundTrip(v, t1);
    StampRoundTrip(v, t2);
    var f1 := head + s1 + ".tar";
    var f2 := head + s2 + ".tar";
    assert f1[|head|..|head| + |s1|] == s1;
    assert f2[|head|..|head| + |s2|] == s2;
    StampInjective(v, t1, t2);
  }

  /** A number below ten takes a leading zero. */
  lemma TwoDigitsSmall(n: nat)
    requires n < 10
    ensures TwoDigits(n) == ['0', DigitChar(n)]
  {
    assert ShowNat(n) == [DigitChar(n)];
    assert Zeros(1) == ['0'];
  }

  lemma TwoDigitExamples()
    ensures TwoDigits(0) == "00" && TwoDigits(1) == "01" && TwoDigits(3) == "03"
  {
    TwoDigitsSmall(0);
    TwoDigitsSmall(1);
    TwoDigitsSmall(3);
    assert DigitChar(0) == '0' && DigitChar(1) == '1' && DigitChar(3) == '3';
  }

  lemma YearExample()
    ensures YearText(2024) == "2024"
  {
    assert DigitChar(2) == '2' && DigitChar(0) == '0' && DigitChar(4) == '4';
    assert ShowNat(2) == "2";
    assert ShowNat(20) == "20";
    assert ShowNat(202) == "202";
    assert ShowNat(2024) == "2024";
    assert Zeros(0) == [];
  }

  /** containers/truenas_backup writes "20060102-150405": year, month, day, a dash, hour, minute, second. */
  lemma LayoutBackup(texts: seq<string>)
    requires |texts| == 5
    ensures Render(Layout(TrueNasBackup), texts) == texts[0] + (texts[1] + ("-" + (texts[2] + (texts[3] + texts[4]))))
  {
    var l := Layout(TrueNasBackup);
    assert l[5..][1..] == l[6..];
    assert texts[4..][1..] == texts[5..];
    assert Render(l[5..], texts[4..]) == texts[4] + [];
    assert l[4..][1..] == l[5..];
    assert texts[3..][1..] == texts[4..];
    assert Render(l[4..], texts[3..]) == texts[3] + texts[4];
    assert l[3..][1..] == l[4..];
    assert texts[2..][1..] == texts[3..];
    assert Render(l[3..], texts[2..]) == texts[2] + (texts[3] + texts[4]);
    assert l[2..][1..] == l[3..];
    assert Render(l[2..], texts[2..]) == "-" + (texts[2] + (texts[3] + texts[4]));
    assert l[1..][1..] == l[2..];
    assert texts[1..][1..] == texts[2..];
    assert Render(l[1..], texts[1..]) == texts[1] + ("-" + (texts[2] + (texts[3] + texts[4])));
    assert l[0..][1..] == l[1..];
    assert texts[0..][1..] == texts[1..];
    assert Render(l[0..], texts[0..]) == texts[0] + (texts[1] + ("-" + (texts[2] + (texts[3] + texts[4]))));
    assert l[0..] == l && texts[0..] == texts;
  }

  /** containers/truenas_backup_to_s3 writes "2006-01-02_15-04-05". */
  lemma LayoutToS3(texts: seq<string>)
    requires |texts| == 5
    ensures Render(Layout(TrueNasBackupToS3), texts) == "-" + (texts[0] + ("-" + (texts[1] + ("_" + (texts[2] + ("-" + (texts[3] + ("-" + texts[4]))))))))
  {
    var l := Layout(TrueNasBackupToS3);
    assert l[9..][1..] == l[10..];
    assert texts[4..][1..] == texts[5..];
    assert Render(l[9..], texts[4..]) == texts[4] + [];
    assert l[8..][1..] == l[9..];
    assert Render(l[8..], texts[4..]) == "-" + texts[4];
    assert l[7..][1..] == l[8..];
    assert texts[3..][1..] == texts[4..];
    assert Render(l[7..], texts[3..]) == texts[3] + ("-" + texts[4]);
    assert l[6..][1..] == l[7..];
    assert Render(l[6..], texts[3..]) == "-" + (texts[3] + ("-" + texts[4]));
    assert l[5..][1..] == l[6..];
    assert texts[2..][1..] == texts[3..];
    assert Render(l[5..], texts[2..]) == texts[2] + ("-" + (texts[3] + ("-" + texts[4])));
    assert l[4..][1..] == l[5..];
    assert Render(l[4..], texts[2..]) == "_" + (texts[2] + ("-" + (texts[3] + ("-" + texts[4]))));
    assert l[3..][1..] == l[4..];
    assert texts[1..][1..] == texts[2..];
    assert Render(l[3..], texts[1..]) == texts[1] + ("_" + (texts[2] + ("-" + (texts[3] + ("-" + texts[4])))));
    assert l[2..][1..] == l[3..];
    assert Render(l[2..], texts[1..]) == "-" + (texts[1] + ("_" + (texts[2] + ("-" + (texts[3] + ("-" + texts[4]))))));
    assert l[1..][1..] == l[2..];
    assert texts[0..][1..] == texts[1..];
    assert Render(l[1..], texts[0..]) == texts[0] + ("-" + (texts[1] + ("_" + (texts[2] + ("-" + (texts[3] + ("-" + texts[4])))))));
    assert l[0..][1..] == l[1..];
    assert Render(l[0..], texts[0..]) == "-" + (texts[0] + ("-" + (texts[1] + ("_" + (texts[2] + ("-" + (texts[3] + ("-" + texts[4]))))))));
    assert l[0..] == l && texts[0..] == texts;
  }

  /** The fields of 2024-03-01 00:00:00 UTC. */
  lemma ExampleFields(t: DateTime)
    requires t == DateTime(2024, 3, 1, 0, 0, 0)
    ensures YearText(t.year) == "2024"
    ensures Fields(t) == ["03", "01", "00", "00", "00"]
  {
    YearExample();
    TwoDigitExamples();
  }

  lemma BackupExampleText()
    ensures "2024" + ("03" + ("01" + ("-" + ("00" + ("00" + "00"))))) == "20240301-000000"
  {
  }

  /** 2024-03-01 00:00:00 UTC in the layout of containers/truenas_backup. */
  lemma StampExampleBackup(t: DateTime)
    requires t == DateTime(2024, 3, 1, 0, 0, 0)
    ensures Stamp(TrueNasBackup, t) == "20240301-000000"
  {
    ExampleFields(t);
    var texts := Fields(t);
    LayoutBackup(texts);
    assert texts[0] == "03" && texts[1] == "01" && texts[2] == "00" && texts[3] == "00" && texts[4] == "00";
    BackupExampleText();
  }

  lemma ToS3ExampleText()
    ensures "2024" + ("-" + ("03" + ("-" + ("01" + ("_" + ("00" + ("-" + ("00" + ("-" + "00"))))))))) == "2024-03-01_00-00-00"
  {
  }

  /** 2024-03-01 00:00:00 UTC in the layout of containers/truenas_backup_to_s3. */
  lemma StampExampleToS3(t: DateTime)
    requires t == DateTime(2024, 3, 1, 0, 0, 0)
    ensures Stamp(TrueNasBackupToS3, t) == "2024-03-01_00-00-00"
  {
    ExampleFields(t);
    var texts := Fields(t);
    LayoutToS3(texts);
    assert texts[0] == "03" && texts[1] == "01" && texts[2] == "00" && texts[3] == "00" && texts[4] == "00";
    ToS3ExampleText();
  }

  lemma FilenameExampleText()
    ensures "nas" + "-config-" + "20240301-000000" + ".tar" == "nas-config-20240301-000000.tar"
    ensures "nas" + "-config-" + "2024-03-01_00-00-00" + ".tar" == "nas-config-2024-03-01_00-00-00.tar"
  {
    assert "nas" + "-config-" == "nas-config-";
    assert "nas-config-" + "20240301-000000" == "nas-config-20240301-000000";
    assert "nas-config-" + "2024-03-01_00-00-00" == "nas-config-2024-03-01_00-00-00";
  }

  /** The archive names of an appliance called "nas" at 2024-03-01 00:00:00 UTC. */
  lemma FilenameExamples(t: DateTime)
    requires t == DateTime(2024, 3, 1, 0, 0, 0)
    ensures Filename(TrueNasBackup, "nas", t) == "nas-config-20240301-000000.tar"
    ensures Filename(TrueNasBackupToS3, "nas", t) == "nas-config-2024-03-01_00-00-00.tar"
  {
    StampExampleBackup(t);
    StampExampleToS3(t);
    FilenameExampleText();
  }
}
