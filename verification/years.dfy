/**
 * The year scanner: the four digits after the leftmost ", " that is followed
 * by four ASCII digits (the pattern `, [0-9]{4}`), or a fixed fallback year.
 */
module Years {
  import opened Wrappers

  /** The year reported when the text holds no date. */
  const Fallback: string := "2018"

  predicate IsDigit(c: char)
  {
    '0' <= c <= '9'
  }

  /** The pattern `, [0-9]{4}` matches `text` at index `i`. */
  predicate YearAt(text: string, i: int)
  {
    0 <= i && i + 6 <= |text| && text[i] == ',' && text[i + 1] == ' ' &&
    IsDigit(text[i + 2]) && IsDigit(text[i + 3]) && IsDigit(text[i + 4]) && IsDigit(text[i + 5])
  }

  /** The leftmost match at or after `from`, scanning left to right. */
  function FindYear(text: string, from: nat): (r: Option<nat>)
    ensures r.Some? ==> from <= r.value && YearAt(text, r.value)
    ensures r.Some? ==> forall k :: from <= k < r.value ==> !YearAt(text, k)
    ensures r.None? ==> forall k :: from <= k ==> !YearAt(text, k)
    decreases |text| - from
  {
    if |text| < from + 6 then None
    else if YearAt(text, from) then Some(from)
    else FindYear(text, from + 1)
  }

  /** The year of a free-text date such as "Friday, January 7, 2011 at 4:25pm UTC+11". */
  function GetYear(text: string): (y: string)
    ensures |y| == 4 && forall j :: 0 <= j < 4 ==> IsDigit(y[j])
  {
    match FindYear(text, 0)
    case Some(i) => text[i + 2..i + 6]
    case None => Fallback
  }

  /**
   * The year is the four digits of the leftmost match of `, [0-9]{4}`, and
   * the fallback exactly when nothing matches.
   */
  lemma GetYearLeftmost(text: string)
    ensures forall i :: YearAt(text, i) && (forall k :: 0 <= k < i ==> !YearAt(text, k)) ==>
              GetYear(text) == text[i + 2..i + 6]
    ensures (forall i :: !YearAt(text, i)) ==> GetYear(text) == Fallback
  {
    match FindYear(text, 0)
    case Some(j) =>
      forall i | YearAt(text, i) && (forall k :: 0 <= k < i ==> !YearAt(text, k))
        ensures GetYear(text) == text[i + 2..i + 6]
      {
        assert !(j < i) && !(i < j);
      }
    case None =>
  }

  /** The first example of the scanner's documentation. */
  lemma GetYearDayMonthYear()
    ensures GetYear("May 19, 2007") == "2007"
  {
    var text := "May 19, 2007";
    assert YearAt(text, 6);
    GetYearLeftmost(text);
  }

  /** The second date format of the scanner's documentation. */
  const DocDate: string := "Friday, January 7, 2011 at 4:25pm UTC+11"

  /** Before the year, the only comma in `DocDate` is the one after the weekday. */
  lemma DocDateNoCommaBefore()
    ensures forall k | 0 <= k < 17 && k != 6 :: DocDate[k] != ','
  {
  }

  /** No match of the pattern starts before index 17 of `DocDate`. */
  lemma DocDateNoYearBefore()
    ensures forall k | 0 <= k < 17 :: !YearAt(DocDate, k)
  {
    DocDateNoCommaBefore();
    assert DocDate[8] == 'J';
  }

  /** The pattern matches at index 17 of `DocDate`, before the digits "2011". */
  lemma DocDateYear()
    ensures YearAt(DocDate, 17) && DocDate[19..23] == "2011"
  {
    var head, date, tail := "Friday, January 7", ", 2011", " at 4:25pm UTC+11";
    assert DocDate == head + date + tail;
    assert DocDate[17..23] == date;
    assert DocDate[19..23] == date[2..];
  }

  /** The second example of the scanner's documentation. */
  lemma GetYearDocExample()
    ensures GetYear("Friday, January 7, 2011 at 4:25pm UTC+11") == "2011"
  {
    DocDateNoYearBefore();
    DocDateYear();
    GetYearLeftmost(DocDate);
  }

  /** A date followed by a time gives the date's year. */
  lemma GetYearDateTime()
    ensures GetYear("Jan 7, 2011, 4:25 PM") == "2011"
  {
    assert YearAt("Jan 7, 2011, 4:25 PM", 5);
    GetYearLeftmost("Jan 7, 2011, 4:25 PM");
  }

  /** Of two dates, the leftmost gives the year. */
  lemma GetYearTwoDates()
    ensures GetYear("May 19, 2007, Jan 7, 2011") == "2007"
  {
    var text := "May 19, 2007, Jan 7, 2011";
    assert YearAt(text, 6) && YearAt(text, 19);
    forall k | 0 <= k < 6 ensures !YearAt(text, k) {
      assert text[k] != ',';
    }
    assert FindYear(text, 0) == Some(6);
    assert GetYear(text) == text[8..12];
    assert text[8..12] == ['2', '0', '0', '7'];
  }

  /** Digits after the fourth are not part of the year. */
  lemma GetYearExtraDigits()
    ensures GetYear(", 20112") == "2011"
  {
    assert YearAt(", 20112", 0);
    GetYearLeftmost(", 20112");
  }

  /** A text without the pattern gets the fallback year. */
  lemma GetYearNoDate()
    ensures GetYear("no date here") == Fallback
  {
    GetYearLeftmost("no date here");
  }
}
