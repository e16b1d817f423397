/**
 * The appointment time slots offered by the booking forms of the dashboard
 * and doctor pages (src/pages/dashboard.tsx and src/pages/doctor.tsx, which
 * each carry their own copy of `generateTimeOptions`): every half hour from
 * 07:00 to 20:00, written "HH:MM".
 */
module TimeSlots {

  /** `startHour` and `endHour`. */
  const StartHour: nat := 7
  const EndHour: nat := 20

  /** The number of slots: the hour marks 07..20 and the half hours 07..19. */
  const SlotCount: nat := 2 * (EndHour - StartHour) + 1

  function DigitChar(d: nat): char
    requires d < 10
  {
    ('0' as int + d) as char
  }

  /** `n.toString()`: decimal digits, no leading zeros. */
  function DecimalString(n: nat): (s: string)
    ensures 1 <= |s|
    ensures n < 10 ==> s == [DigitChar(n)]
    ensures 10 <= n < 100 ==> s == [DigitChar(n / 10), DigitChar(n % 10)]
    decreases n
  {
    if n < 10 then [DigitChar(n)] else DecimalString(n / 10) + [DigitChar(n % 10)]
  }

  /** `s.padStart(width, "0")`. */
  function PadStart(s: string, width: nat): (r: string)
    ensures |r| == if |s| >= width then |s| else width
    ensures r[|r| - |s|..] == s
    ensures forall i :: 0 <= i < |r| - |s| ==> r[i] == '0'
  {
    if |s| >= width then s else seq(width - |s|, _ => '0') + s
  }

  /** The two-digit hour: `hour.toString().padStart(2, "0")`. */
  function HourText(hour: nat): string
  {
    PadStart(DecimalString(hour), 2)
  }

  /** An hour below 100 is written as exactly its two decimal digits. */
  lemma HourTextDigits(hour: nat)
    requires hour < 100
    ensures HourText(hour) == [DigitChar(hour / 10), DigitChar(hour % 10)]
  {
    var d := DecimalString(hour);
    if hour < 10 {
      assert HourText(hour) == ['0'] + d;
    }
  }

  /** Slot `k`: the hour mark of hour 7 + k/2 for even `k`, its half hour for odd `k`. */
  function Slot(k: nat): string
  {
    HourText(StartHour + k / 2) + (if k % 2 == 0 then ":00" else ":30")
  }

  /** The two slots of `hour`: its mark at index 2(hour - 7), its half hour right after. */
  lemma SlotsOfHour(hour: nat)
    requires StartHour <= hour
    ensures Slot(2 * (hour - StartHour)) == HourText(hour) + ":00"
    ensures Slot(2 * (hour - StartHour) + 1) == HourText(hour) + ":30"
  {
    var k := 2 * (hour - StartHour);
    Halves(hour - StartHour);
    assert StartHour + k / 2 == hour;
    assert StartHour + (k + 1) / 2 == hour;
  }

  lemma Halves(n: nat)
    ensures (2 * n) / 2 == n && (2 * n) % 2 == 0
    ensures (2 * n + 1) / 2 == n && (2 * n + 1) % 2 == 1
  {
  }

  /** The list `generateTimeOptions` returns. */
  function Options(): seq<string>
  {
    seq(SlotCount, k requires 0 <= k < SlotCount => Slot(k))
  }

  /** Pushing the mark of `hour` onto the slots of the earlier hours gives the next prefix of the list. */
  lemma PushMark(times: seq<string>, hour: nat)
    requires StartHour <= hour <= EndHour
    requires times == Options()[..2 * (hour - StartHour)]
    ensures times + [HourText(hour) + ":00"] == Options()[..2 * (hour - StartHour) + 1]
  {
    SlotsOfHour(hour);
    PrefixSnoc(Options(), 2 * (hour - StartHour));
  }

  /** Then pushing its half hour, for every hour but the last, gives the prefix after that. */
  lemma PushHalf(times: seq<string>, hour: nat)
    requires StartHour <= hour < EndHour
    requires times == Options()[..2 * (hour - StartHour) + 1]
    ensures times + [HourText(hour) + ":30"] == Options()[..2 * (hour - StartHour) + 2]
  {
    SlotsOfHour(hour);
    PrefixSnoc(Options(), 2 * (hour - StartHour) + 1);
  }

  lemma PrefixSnoc<T>(s: seq<T>, n: nat)
    requires n < |s|
    ensures s[..n + 1] == s[..n] + [s[n]]
  {
  }

  predicate IsDigit(c: char)
  {
    '0' <= c <= '9'
  }

  function DigitValue(c: char): int
  {
    c as int - '0' as int
  }

  /** "HH:MM" with a two-digit hour and minutes "00" or "30". */
  predicate IsSlotText(s: string)
  {
    |s| == 5 && IsDigit(s[0]) && IsDigit(s[1]) && s[2] == ':' && s[3..] in {"00", "30"}
  }

  /** The minutes since midnight that an "HH:MM" text stands for. */
  function MinutesOf(s: string): int
    requires |s| == 5
  {
    (DigitValue(s[0]) * 10 + DigitValue(s[1])) * 60 + DigitValue(s[3]) * 10 + DigitValue(s[4])
  }

  /** The two-digit hour reads back as the hour. */
  lemma HourTextValue(h: nat)
    requires h < 100
    ensures |HourText(h)| == 2 && IsDigit(HourText(h)[0]) && IsDigit(HourText(h)[1])
    ensures DigitValue(HourText(h)[0]) * 10 + DigitValue(HourText(h)[1]) == h
  {
    HourTextDigits(h);
    assert DigitValue(DigitChar(h / 10)) == h / 10;
    assert DigitValue(DigitChar(h % 10)) == h % 10;
  }

  /** A two-digit hour followed by ":00" or ":30" reads back as that time. */
  lemma TimeText(h: nat, half: bool)
    requires h < 100
    ensures IsSlotText(HourText(h) + (if half then ":30" else ":00"))
    ensures MinutesOf(HourText(h) + (if half then ":30" else ":00")) == h * 60 + (if half then 30 else 0)
  {
    HourTextValue(h);
    var ht := HourText(h);
    var suffix := if half then ":30" else ":00";
    var s := ht + suffix;
    assert s[0] == ht[0] && s[1] == ht[1] && s[2] == ':' && s[3] == suffix[1] && s[4] == suffix[2];
    assert s[3..] == suffix[1..];
  }

  /** Slot `k` is an "HH:MM" text standing for 07:00 plus `k` half hours. */
  lemma SlotMeaning(k: nat)
    requires k < SlotCount
    ensures IsSlotText(Slot(k))
    ensures MinutesOf(Slot(k)) == StartHour * 60 + 30 * k
  {
    var q := k / 2;
    var half := k % 2 == 1;
    assert k == 2 * q + (if half then 1 else 0);
    TimeText(StartHour + q, half);
  }

  /**
   * The slots are 27 "HH:MM" texts in strictly increasing order, so no two
   * are equal and each can serve as a list key.
   */
  lemma OptionsIncreasing()
    ensures |Options()| == 27
    ensures forall k :: 0 <= k < |Options()| ==> IsSlotText(Options()[k])
    ensures forall i, j :: 0 <= i < j < |Options()| ==> MinutesOf(Options()[i]) < MinutesOf(Options()[j])
    ensures forall i, j :: 0 <= i < j < |Options()| ==> Options()[i] != Options()[j]
  {
    forall k | 0 <= k < SlotCount
      ensures IsSlotText(Slot(k)) && MinutesOf(Slot(k)) == StartHour * 60 + 30 * k
    {
      SlotMeaning(k);
    }
  }

  /** Slot `k` is entry `k` of the list. */
  lemma OptionsAt(k: nat)
    requires k < SlotCount
    ensures |Options()| == SlotCount && Options()[k] == Slot(k)
  {
  }

  /** "20:30" stands for 20 h 30 min. */
  lemma LateText()
    ensures |"20:30"| == 5 && MinutesOf("20:30") == 20 * 60 + 30
  {
    assert DigitValue('2') == 2 && DigitValue('0') == 0 && DigitValue('3') == 3;
  }

  /** The slots run from "07:00" to "20:00"; there is no "20:30". */
  lemma OptionsRange()
    ensures Options()[0] == "07:00"
    ensures Options()[|Options()| - 1] == "20:00"
    ensures "20:30" !in Options()
  {
    OptionsAt(0);
    OptionsAt(SlotCount - 1);
    EndSlots();
    forall k | 0 <= k < SlotCount
      ensures Options()[k] != "20:30"
    {
      OptionsAt(k);
      NotHalfPastEight(k);
    }
  }

  /** The first slot is "07:00" and the last "20:00". */
  lemma EndSlots()
    ensures Slot(0) == "07:00" && Slot(SlotCount - 1) == "20:00"
  {
    HourTextOf(7);
    HourTextOf(20);
    assert Slot(0) == HourText(7) + ":00";
    assert Slot(SlotCount - 1) == HourText(20) + ":00";
  }

  /** The two-digit hour, character by character. */
  lemma HourTextOf(h: nat)
    requires h < 100
    ensures HourText(h) == [('0' as int + h / 10) as char, ('0' as int + h % 10) as char]
  {
    HourTextDigits(h);
  }

  lemma NotHalfPastEight(k: nat)
    requires k < SlotCount
    ensures Slot(k) != "20:30"
  {
    SlotMeaning(k);
    LateText();
  }

  /** Exactly the even slots are hour marks (14 of them) and the odd ones half hours (13). */
  lemma HourMarksAndHalfHours(k: nat)
    requires k < SlotCount
    ensures Options()[k][3..] == "00" <==> k % 2 == 0
    ensures |set j | 0 <= j < SlotCount && j % 2 == 0| == 14
  {
    SlotMeaning(k);
    var s := Options()[k];
    if k % 2 == 0 {
      assert s[2..] == ":00";
    } else {
      assert s[2..] == ":30";
      assert s[3..] == "30";
    }
    EvenCount(SlotCount);
  }

  /** Among 0..n-1, (n + 1) / 2 numbers are even. */
  lemma {:induction false} EvenCount(n: nat)
    ensures |set j | 0 <= j < n && j % 2 == 0| == (n + 1) / 2
  {
    if n > 0 {
      EvenCount(n - 1);
      var prev := set j | 0 <= j < n - 1 && j % 2 == 0;
      if (n - 1) % 2 == 0 {
        assert (set j | 0 <= j < n && j % 2 == 0) == prev + {n - 1};
      } else {
        assert (set j | 0 <= j < n && j % 2 == 0) == prev;
      }
    }
  }
}
