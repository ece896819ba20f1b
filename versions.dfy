/**
 * Version tokens written by `strftime("v_%Y%m%d_%H%M")`
 * (tensorflow_datasets/core/dataset_builder.py:188) and the reason
 * "lexicographically last" picks the newest version: every field is
 * zero-padded to a fixed width, so string order is chronological order.
 */
module Versions {
  import opened PyStrings

  /** A wall-clock reading at minute resolution. */
  datatype Timestamp = Timestamp(year: nat, month: nat, day: nat, hour: nat, minute: nat)

  /** Field ranges of Python's `datetime`, restricted to four-digit years. */
  predicate ValidTimestamp(t: Timestamp)
  {
    1000 <= t.year <= 9999 && 1 <= t.month <= 12 && 1 <= t.day <= 31
    && t.hour < 24 && t.minute < 60
  }

  /** `t` is at or before `u` in time: compares year, then month, day, hour, minute. */
  predicate AtOrBefore(t: Timestamp, u: Timestamp)
  {
    t.year < u.year || (t.year == u.year &&
    (t.month < u.month || (t.month == u.month &&
    (t.day < u.day || (t.day == u.day &&
    (t.hour < u.hour || (t.hour == u.hour && t.minute <= u.minute)))))))
  }

  function Pow10(w: nat): (p: nat)
    ensures p >= 1
  {
    if w == 0 then 1 else 10 * Pow10(w - 1)
  }

  function DigitChar(d: nat): char
    requires d < 10
  {
    ('0' as int + d) as char
  }

  /** `x` in decimal, zero-padded to exactly `w` digits (`%05d`-style). */
  function Pad(x: nat, w: nat): (s: string)
    requires x < Pow10(w)
    ensures |s| == w
    ensures forall k :: 0 <= k < |s| ==> '0' <= s[k] <= '9'
  {
    if w == 0 then [] else Pad(x / 10, w - 1) + [DigitChar(x % 10)]
  }

  /** Zero-padded numbers of one width compare as strings as they compare as numbers. */
  lemma {:induction false} PadOrder(x: nat, y: nat, w: nat)
    requires x < Pow10(w) && y < Pow10(w)
    ensures LexLe(Pad(x, w), Pad(y, w)) <==> x <= y
    ensures Pad(x, w) == Pad(y, w) <==> x == y
  {
    if w > 0 {
      PadOrder(x / 10, y / 10, w - 1);
      var a, c := Pad(x / 10, w - 1), Pad(y / 10, w - 1);
      var cx, cy := DigitChar(x % 10), DigitChar(y % 10);
      LexLeAppend(a, [cx], c, [cy]);
      assert LexLe([cx], [cy]) <==> x % 10 <= y % 10 by {
        assert [cx][1..] == [] && [cy][1..] == [];
      }
      if a + [cx] == c + [cy] {
        assert a == (a + [cx])[..w - 1] && c == (c + [cy])[..w - 1];
        assert cx == (a + [cx])[w - 1] && cy == (c + [cy])[w - 1];
      }
    }
  }

  /** The version token of a timestamp, e.g. "v_20180601_1200". */
  function Token(t: Timestamp): (s: string)
    requires ValidTimestamp(t)
    ensures |s| == 15
  {
    "v_" + (Pad(t.year, 4) + (Pad(t.month, 2) + (Pad(t.day, 2)
      + ("_" + (Pad(t.hour, 2) + Pad(t.minute, 2))))))
  }

  /** One step of the token comparison: equal-width padded field, then the rest. */
  lemma FieldStep(x: nat, y: nat, w: nat, b: string, d: string)
    requires x < Pow10(w) && y < Pow10(w)
    ensures LexLe(Pad(x, w) + b, Pad(y, w) + d) <==> x < y || (x == y && LexLe(b, d))
  {
    PadOrder(x, y, w);
    LexLeAppend(Pad(x, w), b, Pad(y, w), d);
  }

  /** Fixed-width tokens: the lexicographically later token is the later timestamp. */
  lemma TokenOrderIsChronological(t: Timestamp, u: Timestamp)
    requires ValidTimestamp(t) && ValidTimestamp(u)
    ensures LexLe(Token(t), Token(u)) <==> AtOrBefore(t, u)
  {
    var hm := Pad(t.hour, 2) + Pad(t.minute, 2);
    var hm' := Pad(u.hour, 2) + Pad(u.minute, 2);
    var d := Pad(t.day, 2) + ("_" + hm);
    var d' := Pad(u.day, 2) + ("_" + hm');
    var m := Pad(t.month, 2) + d;
    var m' := Pad(u.month, 2) + d';
    var y := Pad(t.year, 4) + m;
    var y' := Pad(u.year, 4) + m';
    LexLeAppend("v_", y, "v_", y');
    FieldStep(t.year, u.year, 4, m, m');
    FieldStep(t.month, u.month, 2, d, d');
    FieldStep(t.day, u.day, 2, "_" + hm, "_" + hm');
    LexLeAppend("_", hm, "_", hm');
    FieldStep(t.hour, u.hour, 2, Pad(t.minute, 2), Pad(u.minute, 2));
    PadOrder(t.minute, u.minute, 2);
  }

  /** Two timestamps in the same minute give the same token, and only they do. */
  lemma TokenInjective(t: Timestamp, u: Timestamp)
    requires ValidTimestamp(t) && ValidTimestamp(u)
    ensures Token(t) == Token(u) <==> t == u
  {
    if Token(t) == Token(u) {
      LexLeReflexive(Token(t));
      TokenOrderIsChronological(t, u);
      TokenOrderIsChronological(u, t);
    }
  }

  /** A token holds no '.', so it never contains the ".incomplete" marker. */
  lemma TokenIsComplete(t: Timestamp)
    requires ValidTimestamp(t)
    ensures !Contains(Token(t), ".incomplete")
  {
    var s := Token(t);
    forall k | 0 <= k < |s|
      ensures s[k] != '.'
    {
      var y := Pad(t.year, 4);
      var mo := Pad(t.month, 2);
      var dd := Pad(t.day, 2);
      var hh := Pad(t.hour, 2);
      var mi := Pad(t.minute, 2);
      assert s == "v_" + y + mo + dd + "_" + hh + mi;
      if k < 2 {
      } else if k < 6 {
        assert s[k] == y[k - 2];
      } else if k < 8 {
        assert s[k] == mo[k - 6];
      } else if k < 10 {
        assert s[k] == dd[k - 8];
      } else if k < 11 {
      } else if k < 13 {
        assert s[k] == hh[k - 11];
      } else {
        assert s[k] == mi[k - 13];
      }
    }
    MissingFirstChar(s, ".incomplete");
  }
}
