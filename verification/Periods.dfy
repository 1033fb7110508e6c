/** Accounting periods (accounting-periods.service.ts). */
module Periods {
  import opened Prelude
  import opened Journal

  datatype PeriodError = BadDateText | BadYearMonth | PeriodClosed | NoReason

  /** Why an entry date is refused, if it is. */
  function DateFault(periods: map<(int, int), Period>, entryDate: string): Option<PeriodError> {
    if !IsDateText(entryDate) then Some(BadDateText)
    else
      var d := ReadCivil(entryDate);
      if !ValidYearMonth(d.year, d.month) then Some(BadYearMonth)
      else if IsClosed(periods, d.year, d.month) then Some(PeriodClosed)
      else None
  }

  predicate IsClosed(periods: map<(int, int), Period>, year: int, month: int) {
    (year, month) in periods && periods[(year, month)].status == Closed
  }

  /** The first closing stamp of a month is kept by every later closing. */
  function ClosedRow(row: Option<Period>, now: int, actor: Option<int>): Period {
    match row
    case None => Period(Closed, Some(now), actor, None, None, None)
    case Some(p) => p.(
      status := Closed,
      closedAt := if p.closedAt.Some? then p.closedAt else Some(now),
      closedBy := if p.closedBy.Some? then p.closedBy else actor)
  }

  function ReopenedRow(row: Option<Period>, now: int, actor: int, reason: string): Period {
    match row
    case None => Period(Open, None, None, Some(now), Some(actor), Some(reason))
    case Some(p) => p.(status := Open, reopenedAt := Some(now), reopenedBy := Some(actor), reopenReason := Some(reason))
  }

  function PeriodAt(periods: map<(int, int), Period>, year: int, month: int): Option<Period> {
    if (year, month) in periods then Some(periods[(year, month)]) else None
  }

  // JavaScript white space, as `trim` removes it.
  predicate IsSpace(c: char) {
    || '\U{9}' <= c <= '\U{D}' || c == ' ' || c == '\U{A0}' || c == '\U{1680}'
    || '\U{2000}' <= c <= '\U{200A}' || c == '\U{2028}' || c == '\U{2029}'
    || c == '\U{202F}' || c == '\U{205F}' || c == '\U{3000}' || c == '\U{FEFF}'
  }

  /** These are the white space and the line terminators of ECMA-262, one by one. */
  lemma SpacesOneByOne(c: char)
    ensures IsSpace(c) <==>
            c in ['\t', '\n', '\U{B}', '\U{C}', '\r', ' ', '\U{A0}', '\U{1680}', '\U{2000}', '\U{2001}', '\U{2002}', '\U{2003}',
                  '\U{2004}', '\U{2005}', '\U{2006}', '\U{2007}', '\U{2008}', '\U{2009}', '\U{200A}', '\U{2028}', '\U{2029}',
                  '\U{202F}', '\U{205F}', '\U{3000}', '\U{FEFF}']
  {
  }

  predicate Blank(s: string) {
    forall c :: c in s ==> IsSpace(c)
  }

  /** JavaScript `trim`: the longest part that neither starts nor ends with white space. */
  function Trim(s: string): (t: string)
    ensures exists i, j :: 0 <= i <= j <= |s| && t == s[i..j] && Blank(s[..i]) && Blank(s[j..])
    ensures t != "" ==> !IsSpace(t[0]) && !IsSpace(t[|t| - 1])
    ensures t == "" <==> Blank(s)
  {
    var from := SkipSpace(s, 0);
    var to := SkipSpaceBack(s, |s|);
    if from >= to then
      assert s[..|s|] == s && s[|s|..] == "";
      assert Blank(s) by { SpansBlank(s, from, to); }
      assert s[0..0] == "";
      ""
    else
      assert s[from..to][to - from - 1] == s[to - 1];
      s[from..to]
  }

  function SkipSpace(s: string, from: nat): (k: nat)
    requires from <= |s|
    ensures from <= k <= |s| && Blank(s[from..k]) && (k < |s| ==> !IsSpace(s[k]))
    decreases |s| - from
  {
    if from < |s| && IsSpace(s[from]) then
      var k := SkipSpace(s, from + 1);
      assert s[from..k] == [s[from]] + s[from + 1..k];
      k
    else from
  }

  function SkipSpaceBack(s: string, to: nat): (k: nat)
    requires to <= |s|
    ensures k <= to && Blank(s[k..to]) && (k > 0 ==> !IsSpace(s[k - 1]))
  {
    if to > 0 && IsSpace(s[to - 1]) then
      var k := SkipSpaceBack(s, to - 1);
      assert s[k..to] == s[k..to - 1] + [s[to - 1]];
      k
    else to
  }

  lemma SpansBlank(s: string, from: nat, to: nat)
    requires to <= from <= |s| && Blank(s[..from]) && Blank(s[to..])
    ensures Blank(s)
  {
    forall c | c in s ensures IsSpace(c) {
      var i :| 0 <= i < |s| && s[i] == c;
      if i < from { assert s[..from][i] == c; } else { assert s[to..][i - to] == c; }
    }
  }
}
