/** The expression helpers of the calendar page (components/Calendar.tsx):
    account colour classes and the hour labels of the day grid. */
module CalendarView {
  import opened Js

  /** The eight Tailwind border classes handed out by account position. */
  const AccountColors: seq<string> := [
    "border-l-blue-500", "border-l-green-500", "border-l-purple-500", "border-l-orange-500",
    "border-l-pink-500", "border-l-cyan-500", "border-l-yellow-500", "border-l-red-500"
  ]

  const Fallback: string := "border-l-gray-500"

  /** `accounts.findIndex((a) => a.id === accountId)`: -1 when absent. */
  function FindIndex(accountIds: seq<string>, accountId: string): (i: int)
    ensures -1 <= i < |accountIds|
    ensures i >= 0 ==> accountIds[i] == accountId && forall j :: 0 <= j < i ==> accountIds[j] != accountId
    ensures i == -1 <==> accountId !in accountIds
  {
    if accountIds == [] then -1
    else if accountIds[0] == accountId then 0
    else
      var k := FindIndex(accountIds[1..], accountId);
      if k == -1 then -1 else k + 1
  }

  function GetAccountColor(accountIds: seq<string>, accountId: string): string {
    var i := FindIndex(accountIds, accountId);
    if i >= 0 then AccountColors[i % |AccountColors|] else Fallback
  }

  /** `getAccountColor(accountId).replace("border-l-", "bg-")`. */
  function GetAccountBgColor(accountIds: seq<string>, accountId: string): string {
    ReplaceFirst(GetAccountColor(accountIds, accountId), "border-l-", "bg-")
  }

  /** The account at the first position holding its id gets colour number `i mod 8`; an unknown account is grey. */
  lemma AccountColorByPosition(accountIds: seq<string>, accountId: string, i: nat)
    requires i < |accountIds| && accountIds[i] == accountId
    requires forall j :: 0 <= j < i ==> accountIds[j] != accountId
    ensures GetAccountColor(accountIds, accountId) == AccountColors[i % 8]
  {
    assert FindIndex(accountIds, accountId) == i;
  }

  lemma UnknownAccountIsGrey(accountIds: seq<string>, accountId: string)
    requires accountId !in accountIds
    ensures GetAccountColor(accountIds, accountId) == "border-l-gray-500"
    ensures GetAccountBgColor(accountIds, accountId) == "bg-gray-500"
  {
    assert StartsWith(Fallback, "border-l-");
  }

  lemma ReplaceLeadingPattern(s: string, pattern: string, replacement: string)
    requires StartsWith(s, pattern)
    ensures ReplaceFirst(s, pattern, replacement) == replacement + s[|pattern|..]
  {
  }

  /** The background class is the border class with its "border-l-" prefix swapped for "bg-". */
  lemma BgColorSwapsPrefix(accountIds: seq<string>, accountId: string)
    ensures var c := GetAccountColor(accountIds, accountId);
            StartsWith(c, "border-l-") && GetAccountBgColor(accountIds, accountId) == "bg-" + c[9..]
  {
    var c := GetAccountColor(accountIds, accountId);
    assert forall k :: 0 <= k < 8 ==> StartsWith(AccountColors[k], "border-l-");
    assert StartsWith(Fallback, "border-l-");
    ReplaceLeadingPattern(c, "border-l-", "bg-");
  }

  /** The number printed by `formatHour`: `hour % 12 || 12` with JavaScript's remainder. */
  function HourNumber(hour: int): int {
    var m := JsRem(hour, 12);
    if m == 0 then 12 else m
  }

  /** `formatHour`. */
  function FormatHour(hour: int): string {
    IntToString(HourNumber(hour)) + (if hour < 12 then "am" else "pm")
  }

  /** On the grid's hours the number is the 12-hour clock reading, between 1 and 12. */
  lemma HourNumberOnClock(hour: int)
    requires 0 <= hour <= 23
    ensures 1 <= HourNumber(hour) <= 12
    ensures HourNumber(hour) == (if hour % 12 == 0 then 12 else hour % 12)
  {
  }

  /** Morning hours read "am", the rest "pm". */
  lemma FormatHourSuffix(hour: int)
    ensures EndsWith(FormatHour(hour), if hour < 12 then "am" else "pm")
  {
    EndsWithConcat(IntToString(HourNumber(hour)), if hour < 12 then "am" else "pm");
  }

  lemma FormatHourExamples()
    ensures FormatHour(0) == "12am"
    ensures FormatHour(12) == "12pm"
    ensures FormatHour(9) == "9am"
    ensures FormatHour(23) == "11pm"
    ensures FormatHour(-1) == "-1am"
  {
    assert NatToString(12) == "12";
    assert NatToString(11) == "11";
  }
}
