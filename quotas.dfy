// The API quota ledgers: the per-service `UnifiedQuotaManager` (utils/unified_quota.py),
// which reloads its JSON file on every call, and the older single-service managers
// for Google (utils/quota.py, daily) and Brave (utils/brave_quota.py, monthly), which
// keep the record in memory and write it back. Today's UTC date is a parameter; a
// quota file is an optional stored record, and whether a save succeeds is a parameter.

module Quotas {
  import opened Base
  import opened Dates

  datatype Period = Daily | Monthly

  /** The record field that holds the period key. */
  function Field(p: Period): string
  {
    match p
    case Daily => "date"
    case Monthly => "month"
  }

  /** `strftime("%Y-%m-%d")` / `date.isoformat()` for a day, `strftime("%Y-%m")` for a month. */
  function PeriodKey(p: Period, today: Date): string
    requires ValidDate(today)
  {
    match p
    case Daily => FormatDate(today)
    case Monthly => FormatMonth(today)
  }

  /** A quota record as the code writes it: `{field: stamp, "used": used}`, with None
      for a JSON null. */
  datatype Record = Record(field: string, stamp: Option<string>, used: int)

  /** A quota file's content: a record, or something `json.load` cannot read. */
  datatype Stored = Readable(record: Record) | Unreadable

  /** `_load_quota`: a missing or unreadable file loads as `{field: None, "used": 0}`. */
  function Loaded(p: Period, stored: Option<Stored>): (r: Record)
    ensures stored.Some? && stored.value.Readable? ==> r == stored.value.record
    ensures stored.None? || stored.value.Unreadable? ==> r == Record(Field(p), None, 0)
  {
    match stored
    case Some(Readable(rec)) => rec
    case _ => Record(Field(p), None, 0)
  }

  /** `data.get(field) != current_key`. */
  predicate IsNewPeriod(p: Period, rec: Record, today: Date)
    requires ValidDate(today)
  {
    !(rec.field == Field(p) && rec.stamp == Some(PeriodKey(p, today)))
  }

  /** The record a rollover writes. */
  function Started(p: Period, today: Date): Record
    requires ValidDate(today)
  {
    Record(Field(p), Some(PeriodKey(p, today)), 0)
  }

  /** The record after the rollover check. */
  function Current(p: Period, rec: Record, today: Date): (r: Record)
    requires ValidDate(today)
    ensures !IsNewPeriod(p, r, today)
    ensures r.used == if IsNewPeriod(p, rec, today) then 0 else rec.used
  {
    if IsNewPeriod(p, rec, today) then Started(p, today) else rec
  }

  /** `record_request`: roll over if needed, then `used += 1`. */
  function Bumped(p: Period, rec: Record, today: Date): (r: Record)
    requires ValidDate(today)
    ensures !IsNewPeriod(p, r, today)
    ensures r.used == if IsNewPeriod(p, rec, today) then 1 else rec.used + 1
  {
    var c := Current(p, rec, today);
    c.(used := c.used + 1)
  }

  function BumpedTimes(p: Period, rec: Record, today: Date, n: nat): Record
    requires ValidDate(today)
  {
    if n == 0 then rec else Bumped(p, BumpedTimes(p, rec, today, n - 1), today)
  }

  /** n recorded requests in one period add n to a current record and leave n on a
      record from an earlier period (or a fresh file). */
  lemma {:induction false} BumpedTimesCount(p: Period, rec: Record, today: Date, n: nat)
    requires ValidDate(today) && 1 <= n
    ensures !IsNewPeriod(p, BumpedTimes(p, rec, today, n), today)
    ensures BumpedTimes(p, rec, today, n).used == if IsNewPeriod(p, rec, today) then n else rec.used + n
  {
    if n > 1 {
      BumpedTimesCount(p, rec, today, n - 1);
    }
  }

  /** After `limit` recorded requests in one period no further request is allowed,
      starting from a fresh file, an earlier period or a non-negative count. */
  lemma ExhaustedAfterLimit(p: Period, rec: Record, today: Date, limit: nat)
    requires ValidDate(today)
    requires IsNewPeriod(p, rec, today) || rec.used >= 0
    ensures !(Current(p, BumpedTimes(p, rec, today, limit), today).used < limit)
  {
    if limit > 0 {
      BumpedTimesCount(p, rec, today, limit);
    }
  }

  /** A new period starts from zero, so a request is allowed iff the limit is positive. */
  lemma NewPeriodAllows(p: Period, rec: Record, today: Date, limit: int)
    requires ValidDate(today) && IsNewPeriod(p, rec, today)
    ensures (Current(p, rec, today).used < limit) == (0 < limit)
  {
  }

  /** A record stamped with one day is out of date on any other day. */
  lemma NewDay(rec: Record, stamped: Date, today: Date)
    requires ValidDate(stamped) && ValidDate(today) && stamped != today
    requires rec.field == "date" && rec.stamp == Some(FormatDate(stamped))
    ensures IsNewPeriod(Daily, rec, today)
  {
    ParseFormat(stamped);
    ParseFormat(today);
  }

  /** A record stamped with one month is out of date in any other month, and still
      current on every day of its own month. */
  lemma NewMonth(rec: Record, stamped: Date, today: Date)
    requires ValidDate(stamped) && ValidDate(today)
    requires rec.field == "month" && rec.stamp == Some(FormatMonth(stamped))
    ensures IsNewPeriod(Monthly, rec, today) <==> (stamped.year, stamped.month) != (today.year, today.month)
  {
    var a := FormatMonth(stamped);
    var b := FormatMonth(today);
    if a == b {
      assert a[..4] == Digits(stamped.year, 4) && b[..4] == Digits(today.year, 4);
      assert a[5..] == Digits(stamped.month, 2) && b[5..] == Digits(today.month, 2);
      DigitsRoundTrip(stamped.year, 4);
      DigitsRoundTrip(today.year, 4);
      DigitsRoundTrip(stamped.month, 2);
      DigitsRoundTrip(today.month, 2);
    }
  }

  datatype Usage = Usage(used: int, limit: int, remaining: int, period: Option<Period>)

  /** `UnifiedQuotaManager`: Google daily and Brave monthly, each in its own file. */
  class UnifiedQuotaManager {
    const googleLimit: int
    const braveLimit: int
    /** The quota files by service; a missing key is a missing file. */
    var files: map<string, Stored>

    /** The limits come from GOOGLE_DAILY_QUOTA (default 100) and BRAVE_MONTHLY_QUOTA
        (default 2000). */
    constructor (googleDaily: int, braveMonthly: int, stored: map<string, Stored>)
      ensures googleLimit == googleDaily && braveLimit == braveMonthly && files == stored
    {
      googleLimit := googleDaily;
      braveLimit := braveMonthly;
      files := stored;
    }

    /** `self.configs`: limit and period of the known services. */
    function Config(service: string): Option<(int, Period)>
    {
      if service == "google" then Some((googleLimit, Daily))
      else if service == "brave" then Some((braveLimit, Monthly))
      else None
    }

    function LoadQuota(service: string, p: Period): Record
      reads this
    {
      Loaded(p, if service in files then Some(files[service]) else None)
    }

    /** `_save_quota`: a failed save is logged and the file keeps its old content. */
    method SaveQuota(service: string, data: Record, saveOk: bool)
      modifies this
      ensures files == if saveOk then old(files)[service := Readable(data)] else old(files)
    {
      if saveOk {
        files := files[service := Readable(data)];
      }
    }

    /** `can_make_request`: unknown services are always allowed; otherwise a new
        period is written back as a zero count before the limit is compared. */
    method CanMakeRequest(service: string, today: Date, saveOk: bool) returns (allowed: bool)
      requires ValidDate(today)
      modifies this
      ensures Config(service).None? ==> allowed && files == old(files)
      ensures Config(service).Some? ==>
        (var limit := Config(service).value.0;
         var p := Config(service).value.1;
         var rec := old(LoadQuota(service, p));
         allowed == (Current(p, rec, today).used < limit)
         && files == if IsNewPeriod(p, rec, today) && saveOk then old(files)[service := Readable(Started(p, today))]
                     else old(files))
    {
      var config := Config(service);
      if config.None? {
        return true;
      }
      var (limit, p) := config.value;
      var data := LoadQuota(service, p);
      if IsNewPeriod(p, data, today) {
        data := Started(p, today);
        SaveQuota(service, data, saveOk);
      }
      allowed := data.used < limit;
    }

    /** `record_request`: unknown services are ignored; otherwise roll over if needed,
        add one and save. The limit is not checked. */
    method RecordRequest(service: string, today: Date, saveOk: bool)
      requires ValidDate(today)
      modifies this
      ensures Config(service).None? ==> files == old(files)
      ensures Config(service).Some? ==>
        (var p := Config(service).value.1;
         files == if saveOk then old(files)[service := Readable(Bumped(p, old(LoadQuota(service, p)), today))]
                  else old(files))
    {
      var config := Config(service);
      if config.None? {
        return;
      }
      var (limit, p) := config.value;
      var data := LoadQuota(service, p);
      if IsNewPeriod(p, data, today) {
        data := Started(p, today);
      }
      data := data.(used := data.used + 1);
      SaveQuota(service, data, saveOk);
    }

    /** `get_usage`: a new period reads as zero used, without writing anything. */
    method GetUsage(service: string, today: Date) returns (u: Usage)
      requires ValidDate(today)
      ensures Config(service).None? ==> u == Usage(0, 0, 0, None)
      ensures Config(service).Some? ==>
        (var limit := Config(service).value.0;
         var p := Config(service).value.1;
         u.used == Current(p, LoadQuota(service, p), today).used
         && u.limit == limit && u.remaining == limit - u.used && u.period == Some(p))
      ensures Config(service).Some? && IsNewPeriod(Config(service).value.1, LoadQuota(service, Config(service).value.1), today)
        ==> u.used == 0 && u.remaining == u.limit
    {
      var config := Config(service);
      if config.None? {
        return Usage(0, 0, 0, None);
      }
      var (limit, p) := config.value;
      var data := LoadQuota(service, p);
      var used := if IsNewPeriod(p, data, today) then 0 else data.used;
      u := Usage(used, limit, limit - used, Some(p));
    }
  }

  const DailyLimit: int := 100
  const MonthlyLimit: int := 2000

  /** `get_remaining` of the Google manager. */
  function Remaining(rec: Record, today: Date): (r: int)
    requires ValidDate(today)
    ensures 0 <= r
    ensures IsNewPeriod(Daily, rec, today) ==> r == DailyLimit
    ensures rec.used >= 0 ==> r <= DailyLimit
  {
    if IsNewPeriod(Daily, rec, today) then DailyLimit
    else if DailyLimit - rec.used < 0 then 0 else DailyLimit - rec.used
  }

  /** Each request recorded on one day takes one off the remaining count until it
      reaches zero. */
  lemma RemainingCountsDown(rec: Record, today: Date, n: nat)
    requires ValidDate(today) && IsNewPeriod(Daily, rec, today)
    ensures Remaining(BumpedTimes(Daily, rec, today, n), today)
      == if DailyLimit - n < 0 then 0 else DailyLimit - n
  {
    if n > 0 {
      BumpedTimesCount(Daily, rec, today, n);
    }
  }

  /** `GoogleQuotaManager` (utils/quota.py): the record lives in memory and is written
      to its file. */
  class GoogleQuotaManager {
    var data: Record
    var file: Option<Stored>

    constructor (stored: Option<Stored>)
      ensures data == Loaded(Daily, stored) && file == stored
    {
      data := Loaded(Daily, stored);
      file := stored;
    }

    method SaveQuota(saveOk: bool)
      modifies this
      ensures data == old(data)
      ensures file == if saveOk then Some(Readable(data)) else old(file)
    {
      if saveOk {
        file := Some(Readable(data));
      }
    }

    method CanMakeRequest(today: Date, saveOk: bool) returns (allowed: bool)
      requires ValidDate(today)
      modifies this
      ensures data == Current(Daily, old(data), today)
      ensures allowed == (data.used < DailyLimit)
      ensures file == if IsNewPeriod(Daily, old(data), today) && saveOk then Some(Readable(data)) else old(file)
    {
      if IsNewPeriod(Daily, data, today) {
        data := Started(Daily, today);
        SaveQuota(saveOk);
      }
      allowed := data.used < DailyLimit;
    }

    method RecordRequest(today: Date, saveOk: bool)
      requires ValidDate(today)
      modifies this
      ensures data == Bumped(Daily, old(data), today)
      ensures file == if saveOk then Some(Readable(data)) else old(file)
    {
      if IsNewPeriod(Daily, data, today) {
        data := Started(Daily, today);
      }
      data := data.(used := data.used + 1);
      SaveQuota(saveOk);
    }

    method GetRemaining(today: Date) returns (r: int)
      requires ValidDate(today)
      ensures r == Remaining(data, today)
    {
      if IsNewPeriod(Daily, data, today) {
        return DailyLimit;
      }
      r := if 0 < DailyLimit - data.used then DailyLimit - data.used else 0;
    }
  }

  /** `BraveQuotaManager` (utils/brave_quota.py): like the Google manager, monthly. */
  class BraveQuotaManager {
    var data: Record
    var file: Option<Stored>

    constructor (stored: Option<Stored>)
      ensures data == Loaded(Monthly, stored) && file == stored
    {
      data := Loaded(Monthly, stored);
      file := stored;
    }

    method SaveQuota(saveOk: bool)
      modifies this
      ensures data == old(data)
      ensures file == if saveOk then Some(Readable(data)) else old(file)
    {
      if saveOk {
        file := Some(Readable(data));
      }
    }

    method CanMakeRequest(today: Date, saveOk: bool) returns (allowed: bool)
      requires ValidDate(today)
      modifies this
      ensures data == Current(Monthly, old(data), today)
      ensures allowed == (data.used < MonthlyLimit)
      ensures file == if IsNewPeriod(Monthly, old(data), today) && saveOk then Some(Readable(data)) else old(file)
    {
      if IsNewPeriod(Monthly, data, today) {
        data := Started(Monthly, today);
        SaveQuota(saveOk);
      }
      allowed := data.used < MonthlyLimit;
    }

    method RecordRequest(today: Date, saveOk: bool)
      requires ValidDate(today)
      modifies this
      ensures data == Bumped(Monthly, old(data), today)
      ensures file == if saveOk then Some(Readable(data)) else old(file)
    {
      if IsNewPeriod(Monthly, data, today) {
        data := Started(Monthly, today);
      }
      data := data.(used := data.used + 1);
      SaveQuota(saveOk);
    }

    /** `get_usage` applies no rollover: it reports the stored count and month as they
        are, and `remaining` goes negative once more than 2000 requests are recorded. */
    method GetUsage() returns (u: Usage, month: Option<string>)
      ensures u == Usage(data.used, MonthlyLimit, MonthlyLimit - data.used, Some(Monthly))
      ensures month == if data.field == "month" then data.stamp else None
    {
      u := Usage(data.used, MonthlyLimit, MonthlyLimit - data.used, Some(Monthly));
      month := if data.field == "month" then data.stamp else None;
    }
  }

  /** Recording never checks the limit: 2001 requests in one month, starting from a
      new month, leave the Brave count at 2001 and its remaining count at -1. */
  lemma BraveOverdraws(rec: Record, today: Date)
    requires ValidDate(today) && IsNewPeriod(Monthly, rec, today)
    ensures BumpedTimes(Monthly, rec, today, MonthlyLimit + 1).used == MonthlyLimit + 1
    ensures MonthlyLimit - BumpedTimes(Monthly, rec, today, MonthlyLimit + 1).used == -1
  {
    BumpedTimesCount(Monthly, rec, today, MonthlyLimit + 1);
  }
}
