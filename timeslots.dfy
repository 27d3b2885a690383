/** `generateTimeSlots` of the add form (src/ReservationForm.jsx). */
module TimeSlots {
  import opened JsText

  /** JavaScript's `a % b` for b > 0: truncating, so the remainder takes the sign of `a`. */
  function JsRem(a: int, b: int): (r: int)
    requires b > 0
    ensures -b < r < b
    ensures a >= 0 ==> r == a % b
    ensures a < 0 ==> r <= 0
    ensures (a - r) % b == 0
  {
    RemainderShifts(a, b);
    if a >= 0 || a % b == 0 then a % b else a % b - b
  }

  /** Taking away the remainder, or the remainder less `b`, leaves a multiple of `b`. */
  lemma RemainderShifts(a: int, b: int)
    requires b > 0
    ensures (a - a % b) % b == 0 && (a - (a % b - b)) % b == 0
  {
    var q := a / b;
    assert a - a % b == q * b;
    assert a - (a % b - b) == (q + 1) * b;
    DivUnique(q * b, b, q, 0);
    DivUnique((q + 1) * b, b, q + 1, 0);
  }

  /**
   * The label the loop body builds for minute-of-day `cur`: hour on the
   * 12-hour clock, ':', minutes padded to two characters, ' ', AM or PM.
   * `Math.floor(cur / 60)` is Dafny's `/`, which floors for a positive divisor.
   */
  function Label(cur: int): string {
    var h24 := cur / 60;
    ClockLabel(if JsRem(h24, 12) == 0 then 12 else JsRem(h24, 12), JsRem(cur, 60), h24 >= 12)
  }

  /** The label's text from its parts: `${h12}:${String(min).padStart(2, "0")} ${isPM ? "PM" : "AM"}`. */
  function ClockLabel(h12: int, min: int, isPM: bool): string {
    IntToString(h12) + ":" + PadStart2(IntToString(min)) + " " + (if isPM then "PM" else "AM")
  }

  /** The minutes-of-day the loop visits: from `cur` up to and including `end`, `step` apart. */
  function SlotMinutes(cur: int, end: int, step: int): seq<int>
    requires step > 0
    decreases end - cur
  {
    if cur > end then [] else [cur] + SlotMinutes(cur + step, end, step)
  }

  /** The label of each minute-of-day, in order. */
  function Labels(minutes: seq<int>): (labels: seq<string>)
    ensures |labels| == |minutes|
  {
    if minutes == [] then [] else Labels(minutes[..|minutes| - 1]) + [Label(minutes[|minutes| - 1])]
  }

  lemma LabelsSnoc(minutes: seq<int>, cur: int)
    ensures Labels(minutes + [cur]) == Labels(minutes) + [Label(cur)]
  {
    assert (minutes + [cur])[..|minutes|] == minutes;
  }

  /** The loop body's computation of one label, step by step. */
  method SlotLabel(cur: int) returns (slot: string)
    ensures slot == Label(cur)
  {
    var h24 := cur / 60;
    var min := JsRem(cur, 60);
    var isPM := h24 >= 12;
    var h12 := JsRem(h24, 12);
    if h12 == 0 {
      h12 := 12;
    }
    slot := IntToString(h12) + ":" + PadStart2(IntToString(min)) + " " + (if isPM then "PM" else "AM");
  }

  /** Visiting `cur` moves it from the minutes still ahead to the minutes visited. */
  lemma VisitNext(visited: seq<int>, cur: int, end: int, step: int, start: int)
    requires step > 0 && cur <= end
    requires visited + SlotMinutes(cur, end, step) == SlotMinutes(start, end, step)
    ensures (visited + [cur]) + SlotMinutes(cur + step, end, step) == SlotMinutes(start, end, step)
  {
    var rest := SlotMinutes(cur + step, end, step);
    assert visited + ([cur] + rest) == (visited + [cur]) + rest;
  }

  /** `hour * 60 + minute`: a 24-hour clock time as minutes since midnight. */
  function MinuteOfDay(hour24: int, minute: int): int {
    hour24 * 60 + minute
  }

  /** `generateTimeSlots`: the while loop that advances `cur` and pushes each label. */
  method GenerateTimeSlots(startHour24: int, startMinute: int, endHour24: int, endMinute: int, stepMinutes: int)
    returns (slots: seq<string>)
    requires stepMinutes > 0
    ensures slots == Labels(SlotMinutes(MinuteOfDay(startHour24, startMinute), MinuteOfDay(endHour24, endMinute), stepMinutes))
  {
    slots := [];
    var cur := MinuteOfDay(startHour24, startMinute);
    var end := MinuteOfDay(endHour24, endMinute);
    ghost var start := cur;
    ghost var visited: seq<int> := [];
    while cur <= end
      invariant visited + SlotMinutes(cur, end, stepMinutes) == SlotMinutes(start, end, stepMinutes)
      invariant slots == Labels(visited)
      decreases end - cur
    {
      VisitNext(visited, cur, end, stepMinutes, start);
      LabelsSnoc(visited, cur);
      var slot := SlotLabel(cur);
      slots := slots + [slot];
      visited := visited + [cur];
      cur := cur + stepMinutes;
    }
    assert visited + SlotMinutes(cur, end, stepMinutes) == visited;
  }

  /** Both ends are included: (end - start) / step + 1 labels when start <= end, none otherwise. */
  lemma {:induction false} SlotCount(cur: int, end: int, step: int)
    requires step > 0
    ensures |SlotMinutes(cur, end, step)| == if cur > end then 0 else (end - cur) / step + 1
    decreases end - cur
  {
    if cur <= end {
      SlotCount(cur + step, end, step);
      var x := end - cur;
      if cur + step <= end {
        assert (x - step) / step + 1 == x / step by {
          DivStep(x - step, step);
        }
      }
    }
  }

  lemma MulMonotone(a: int, b: int, d: int)
    requires a <= b && d > 0
    ensures a * d <= b * d
  {
    assert b * d - a * d == (b - a) * d;
  }

  /** The quotient is determined by any decomposition with a remainder in range. */
  lemma DivUnique(x: int, d: int, q: int, r: int)
    requires d > 0 && 0 <= r < d && x == q * d + r
    ensures x / d == q
  {
    var q', r' := x / d, x % d;
    assert x == q' * d + r';
    if q' > q {
      MulMonotone(q + 1, q', d);
    } else if q' < q {
      MulMonotone(q' + 1, q, d);
    }
  }

  lemma DivStep(x: int, step: int)
    requires step > 0 && x >= 0
    ensures (x + step) / step == x / step + 1
  {
    var q, r := x / step, x % step;
    assert x == q * step + r;
    assert x + step == (q + 1) * step + r;
    DivUnique(x + step, step, q + 1, r);
  }

  lemma {:induction false} LabelsAt(minutes: seq<int>, i: nat)
    requires i < |minutes|
    ensures Labels(minutes)[i] == Label(minutes[i])
  {
    if i < |minutes| - 1 {
      LabelsAt(minutes[..|minutes| - 1], i);
    }
  }

  /** The i-th label is the one for minute `cur + i * step`. */
  lemma {:induction false} SlotAt(cur: int, end: int, step: int, i: nat)
    requires step > 0
    requires i < |SlotMinutes(cur, end, step)|
    ensures SlotMinutes(cur, end, step)[i] == cur + i * step
    decreases end - cur
  {
    if i > 0 {
      SlotAt(cur + step, end, step, i - 1);
      assert cur + step + (i - 1) * step == cur + i * step;
    }
  }

  /**
   * The 12-hour reading of a non-negative minute-of-day: hours 0 and 12
   * both show as 12, PM exactly from hour 12 on, minutes padded to two digits.
   */
  lemma LabelParts(cur: nat)
    ensures var h24 := cur / 60;
      var h12 := if h24 % 12 == 0 then 12 else h24 % 12;
      && 1 <= h12 <= 12
      && Label(cur) == NatToString(h12) + ":" + PadStart2(NatToString(cur % 60)) + " " + (if h24 >= 12 then "PM" else "AM")
    ensures |PadStart2(NatToString(cur % 60))| == 2 && Value(PadStart2(NatToString(cur % 60))) == cur % 60
  {
    TwoDigitValue(cur % 60);
  }

  lemma FirstDefaultLabel()
    ensures Label(660) == "11:00 AM"
  {
    assert 660 / 60 == 11 && JsRem(660, 60) == 0 && JsRem(11, 12) == 11;
    assert Label(660) == ClockLabel(11, 0, false);
    ElevenAM();
  }

  lemma ElevenAM()
    ensures ClockLabel(11, 0, false) == "11:00 AM"
  {
    assert NatToString(11) == "11";
    assert NatToString(0) == "0";
  }

  lemma LastDefaultLabel()
    ensures Label(1260) == "9:00 PM"
  {
    assert 1260 / 60 == 21 && JsRem(1260, 60) == 0 && JsRem(21, 12) == 9;
    assert Label(1260) == ClockLabel(9, 0, true);
    NinePM();
  }

  lemma NinePM()
    ensures ClockLabel(9, 0, true) == "9:00 PM"
  {
    assert NatToString(9) == "9";
    assert NatToString(0) == "0";
  }

  /** The add form's configuration, 11:00 to 21:00 every 30 minutes: 21 slots, "11:00 AM" to "9:00 PM". */
  lemma DefaultSlots()
    ensures var slots := Labels(SlotMinutes(11 * 60 + 0, 21 * 60 + 0, 30));
      |slots| == 21 && slots[0] == "11:00 AM" && slots[20] == "9:00 PM"
  {
    var minutes := SlotMinutes(660, 1260, 30);
    SlotCount(660, 1260, 30);
    SlotAt(660, 1260, 30, 0);
    SlotAt(660, 1260, 30, 20);
    LabelsAt(minutes, 0);
    LabelsAt(minutes, 20);
    FirstDefaultLabel();
    LastDefaultLabel();
  }
}
