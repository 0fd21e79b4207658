/** `take_screenshot`: capture a window, save it under a time-stamped file
    name and attach it to the report; on failure attach an error text
    instead and raise the exception again.

    The capture itself, the directory creation and the file write are what
    a `Camera` answers: the moment the file name is stamped with, and the
    exception, if any, that one of those steps raises. */
module Screenshot {
  import opened Common
  import opened Strings

  /** `screenshot_dir="logs/screenshots"`, as path parts. */
  const DefaultDir: seq<string> := ["logs", "screenshots"]

  const Prefix: string := "screenshot_"
  const Extension: string := ".png"
  /** The attachment name when no suffix is given. */
  const DefaultName: string := "操作截图"
  const ErrorName: string := "SCREENSHOT_ERROR"
  const ErrorPrefix: string := "截图失败："
  const WindowMissingText: string := "截图失败：目标窗口未找到"

  /** A reading of `datetime.now()`. */
  datatype DateTime = DateTime(year: nat, month: nat, day: nat, hour: nat, minute: nat, second: nat)

  predicate ValidDateTime(t: DateTime) {
    1 <= t.year <= 9999 && 1 <= t.month <= 12 && 1 <= t.day <= 31
    && t.hour < 24 && t.minute < 60 && t.second < 60
  }

  datatype Camera = Camera(now: DateTime, failure: Option<Error>)

  /** The decimal digits of `n`, zero-padded on the left to `width`. */
  function Pad(n: nat, width: nat): (s: string)
    ensures forall i :: 0 <= i < |s| ==> IsDigit(s[i])
    ensures |s| >= width
  {
    var digits := NatToString(n);
    if |digits| >= width then digits else Repeat('0', width - |digits|) + digits
  }

  /** `strftime("%Y%m%d_%H%M%S")`. */
  function Timestamp(t: DateTime): string {
    Fields(t.year, t.month, t.day, 4) + "_" + Fields(t.hour, t.minute, t.second, 2)
  }

  /** Three padded fields side by side, the first `w` wide. */
  function Fields(a: nat, b: nat, c: nat, w: nat): string {
    Pad(a, w) + Pad(b, 2) + Pad(c, 2)
  }

  function Pow10(k: nat): (p: nat)
    ensures p >= 1
  {
    if k == 0 then 1 else 10 * Pow10(k - 1)
  }

  /** A number below 10^width fits in width digits. */
  lemma {:induction false} DigitsFit(n: nat, width: nat)
    requires 1 <= width && n < Pow10(width)
    ensures |NatToString(n)| <= width
    decreases n
  {
    if n >= 10 {
      assert width >= 2;
      DigitsFit(n / 10, width - 1);
    }
  }

  /** Leading zeros do not change the number. */
  lemma {:induction false} ZerosRead(k: nat, s: string)
    requires forall i :: 0 <= i < |s| ==> IsDigit(s[i])
    ensures DigitsValue(Repeat('0', k) + s) == DigitsValue(s)
    decreases |s|
  {
    if s == [] {
      assert Repeat('0', k) + s == Repeat('0', k);
      ZerosValue(k);
    } else {
      var z := Repeat('0', k) + s;
      assert z[..|z| - 1] == Repeat('0', k) + s[..|s| - 1];
      ZerosRead(k, s[..|s| - 1]);
    }
  }

  lemma {:induction false} ZerosValue(k: nat)
    ensures DigitsValue(Repeat('0', k)) == 0
    decreases k
  {
    if k > 0 {
      assert Repeat('0', k)[..k - 1] == Repeat('0', k - 1);
      ZerosValue(k - 1);
    }
  }

  /** Padding with zeros never changes the number a field reads as. */
  lemma PadValue(n: nat, width: nat)
    ensures DigitsValue(Pad(n, width)) == n
  {
    var digits := NatToString(n);
    DigitsRead(n);
    if |digits| < width {
      ZerosRead(width - |digits|, digits);
    }
  }

  /** A padded field has exactly its width and reads back as its number. */
  lemma PadRead(n: nat, width: nat)
    requires 1 <= width && n < Pow10(width)
    ensures |Pad(n, width)| == width
    ensures DigitsValue(Pad(n, width)) == n
  {
    DigitsFit(n, width);
    PadValue(n, width);
  }

  /** The stamp of a valid date-time has fifteen characters, an underscore at
      index 8 and digits elsewhere, and every field can be read back from its
      place: the stamp determines the second the screenshot was taken. */
  lemma TimestampRoundTrip(t: DateTime)
    requires ValidDateTime(t)
    ensures var s := Timestamp(t);
      && |s| == 15 && s[8] == '_'
      && (forall i :: 0 <= i < 15 && i != 8 ==> IsDigit(s[i]))
      && DigitsValue(s[0..4]) == t.year && DigitsValue(s[4..6]) == t.month
      && DigitsValue(s[6..8]) == t.day && DigitsValue(s[9..11]) == t.hour
      && DigitsValue(s[11..13]) == t.minute && DigitsValue(s[13..15]) == t.second
  {
    assert Pow10(4) == 10000 by {
      assert Pow10(2) == 100;
    }
    FieldsRead(t.year, t.month, t.day, 4);
    FieldsRead(t.hour, t.minute, t.second, 2);
    Joined(Fields(t.year, t.month, t.day, 4), Fields(t.hour, t.minute, t.second, 2));
  }

  /** The stamp's layout: the date's eight characters, '_', the time's
      six. */
  lemma Joined(date: string, time: string)
    requires |date| == 8 && |time| == 6
    ensures var s := date + "_" + time;
      && |s| == 15 && s[8] == '_'
      && (forall i :: 0 <= i < 8 ==> s[i] == date[i])
      && (forall i :: 9 <= i < 15 ==> s[i] == time[i - 9])
      && s[0..4] == date[0..4] && s[4..6] == date[4..6] && s[6..8] == date[6..8]
      && s[9..11] == time[0..2] && s[11..13] == time[2..4] && s[13..15] == time[4..6]
  {
  }

  /** Three padded fields read back one by one. */
  lemma FieldsRead(a: nat, b: nat, c: nat, w: nat)
    requires 1 <= w && a < Pow10(w) && b < 100 && c < 100
    ensures var s := Fields(a, b, c, w);
      && |s| == w + 4
      && (forall i :: 0 <= i < |s| ==> IsDigit(s[i]))
      && DigitsValue(s[0..w]) == a && DigitsValue(s[w..w + 2]) == b && DigitsValue(s[w + 2..w + 4]) == c
  {
    assert Pow10(2) == 100 by {
      assert Pow10(1) == 10;
    }
    PadRead(a, w);
    PadRead(b, 2);
    PadRead(c, 2);
    var s := Fields(a, b, c, w);
    assert s[0..w] == Pad(a, w);
    assert s[w..w + 2] == Pad(b, 2);
    assert s[w + 2..w + 4] == Pad(c, 2);
  }

  /** `if suffix:`: a suffix that is given and not empty. */
  predicate HasSuffix(suffix: Option<string>) {
    suffix.Some? && suffix.value != ""
  }

  /** The file name: the prefix, the stamp, the suffix with its spaces
      turned into underscores, and the extension. */
  function FileName(stamp: string, suffix: Option<string>): string {
    Prefix + stamp + (if HasSuffix(suffix) then "_" + Replace(suffix.value, ' ', '_') else "") + Extension
  }

  /** The file name starts with the prefix and the stamp and ends in ".png";
      between them lies `_` and the suffix with spaces replaced, or nothing
      when there is no suffix. No space survives unless the stamp has one. */
  lemma FileNameParts(stamp: string, suffix: Option<string>)
    ensures var f := FileName(stamp, suffix);
      var n := |Prefix| + |stamp|;
      && |f| >= n + 4
      && f[..n] == Prefix + stamp
      && f[|f| - 4..] == Extension
      && (!HasSuffix(suffix) ==> |f| == n + 4)
      && (HasSuffix(suffix) ==> f[n] == '_' && f[n + 1..|f| - 4] == Replace(suffix.value, ' ', '_'))
      && (' ' !in stamp ==> ' ' !in f)
  {
    var f := FileName(stamp, suffix);
    var n := |Prefix| + |stamp|;
    if HasSuffix(suffix) {
      var r := Replace(suffix.value, ' ', '_');
      assert f == (Prefix + stamp) + ("_" + r) + Extension;
      assert f[n + 1..|f| - 4] == r;
      assert ' ' !in r;
    }
    if ' ' !in stamp {
      assert ' ' !in Prefix + stamp;
    }
  }

  /** Suffixes that differ only in spaces against underscores give the same
      file name, so two such screenshots in the same second share a file. */
  lemma SpacesAreUnderscores(stamp: string, a: string, b: string)
    requires a != "" && b != ""
    requires Replace(a, ' ', '_') == Replace(b, ' ', '_')
    ensures FileName(stamp, Some(a)) == FileName(stamp, Some(b))
  {
  }

  /** The attachment name keeps the suffix as given, spaces included. */
  function AttachmentName(suffix: Option<string>): string {
    if HasSuffix(suffix) then "Screenshot: " + suffix.value else DefaultName
  }

  /** Different suffixes are told apart by the attachment name, which is
      never the error attachment's name. */
  lemma AttachmentNamesDistinct(a: Option<string>, b: Option<string>)
    ensures AttachmentName(a) != ErrorName
    ensures HasSuffix(a) && HasSuffix(b) && AttachmentName(a) == AttachmentName(b) ==> a == b
  {
    if HasSuffix(a) {
      assert AttachmentName(a)[1] == 'c';
      if HasSuffix(b) && AttachmentName(a) == AttachmentName(b) {
        assert a.value == AttachmentName(a)[12..];
        assert b.value == AttachmentName(b)[12..];
      }
    }
    assert ErrorName[1] == 'C';
  }

  /** The error text: a fixed message when the window is not found, the
      exception's text otherwise. */
  function ErrorText(e: Error): (t: string)
    ensures |t| >= |ErrorPrefix| && t[..|ErrorPrefix|] == ErrorPrefix
    ensures e.kind != ElementNotFoundError ==> t[|ErrorPrefix|..] == e.message
    ensures e.kind == ElementNotFoundError ==> t == WindowMissingText
  {
    if e.kind == ElementNotFoundError then WindowMissingText else ErrorPrefix + e.message
  }

  /** `take_screenshot`: the returned path and the single attachment made,
      or the exception raised again after its error attachment. */
  function Take(suffix: Option<string>, dir: seq<string>, camera: Camera): (r: (Result<string>, Attachment))
    ensures r.0.Ok? <==> camera.failure.None?
    ensures r.0.Err? ==> r.0.error == camera.failure.value && r.1 == Text(ErrorName, ErrorText(r.0.error))
    ensures r.0.Ok? ==> r.1 == Png(AttachmentName(suffix))
  {
    match camera.failure
    case Some(e) => (Err(e), Text(ErrorName, ErrorText(e)))
    case None => (Ok(Join(dir + [FileName(Timestamp(camera.now), suffix)], [OsSep])), Png(AttachmentName(suffix)))
  }

  /** The returned path splits back into the directory's parts followed by
      the file name, provided no part and no suffix holds a backslash. */
  lemma PathParts(suffix: Option<string>, dir: seq<string>, camera: Camera)
    requires camera.failure.None?
    requires forall i :: 0 <= i < |dir| ==> OsSep !in dir[i]
    requires suffix.Some? ==> OsSep !in suffix.value
    ensures var path := Take(suffix, dir, camera).0.value;
      Split(path, OsSep) == dir + [FileName(Timestamp(camera.now), suffix)]
  {
    var stamp := Timestamp(camera.now);
    var name := FileName(stamp, suffix);
    var parts := dir + [name];
    assert OsSep !in stamp by {
      assert forall i :: 0 <= i < |Pad(camera.now.year, 4)| ==> IsDigit(Pad(camera.now.year, 4)[i]);
      assert forall i :: 0 <= i < |stamp| ==> stamp[i] != OsSep;
    }
    if HasSuffix(suffix) {
      assert OsSep !in Replace(suffix.value, ' ', '_');
    }
    assert OsSep !in name;
    forall i | 0 <= i < |parts|
      ensures OsSep !in parts[i]
    {
      if i < |dir| {
        assert parts[i] == dir[i];
      }
    }
    SplitJoin(parts, OsSep);
  }
}
