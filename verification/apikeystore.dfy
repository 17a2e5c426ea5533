/** The daily expiry of the saved API key: the key is stored in the browser's
    key/value storage next to the day it was saved, and a later visit keeps it
    only on that same day. The current day is a parameter. */
module ApiKeyStore {
  import opened Types
  import opened Text

  const ApiKeyStorageKey := "gemini_api_key"
  const ApiKeyDateKey := "gemini_api_key_date"

  /** A calendar day as the browser's `Date` reports it: the month counts
      from 0, the day of the month from 1. */
  datatype Date = Date(year: nat, month: nat, day: nat)

  predicate ValidDate(d: Date) {
    d.month < 12 && 1 <= d.day <= 31
  }

  /** `getTodayDateString`: year, then the 1-based month and the day, each
      padded to two digits, joined by dashes. */
  function DateString(d: Date): string {
    Decimal(d.year) + "-" + PadStart2(Decimal(d.month + 1)) + "-" + PadStart2(Decimal(d.day))
  }

  /** The string has the `YYYY-MM-DD` shape: two-digit month and day, each
      after a dash, behind the year's digits. */
  lemma DateStringShape(d: Date)
    requires ValidDate(d)
    ensures var s := DateString(d);
      && |s| == |Decimal(d.year)| + 6
      && s[..|s| - 6] == Decimal(d.year)
      && s[|s| - 6] == '-' && s[|s| - 3] == '-'
      && s[|s| - 5..|s| - 3] == PadStart2(Decimal(d.month + 1))
      && s[|s| - 2..] == PadStart2(Decimal(d.day))
  {
    PadStart2Decimal(d.month + 1, d.month + 1);
    PadStart2Decimal(d.day, d.day);
  }

  /** Different days have different strings, so comparing strings compares
      days. */
  lemma DateStringInjective(a: Date, b: Date)
    requires ValidDate(a) && ValidDate(b) && DateString(a) == DateString(b)
    ensures a == b
  {
    DateStringShape(a);
    DateStringShape(b);
    DecimalInjective(a.year, b.year);
    PadStart2Decimal(a.month + 1, b.month + 1);
    PadStart2Decimal(a.day, b.day);
  }

  /** The storage, as the entries it holds. */
  type Store = map<string, string>

  /** `isApiKeyValidForToday`: the stored day is today's. */
  predicate ValidForToday(store: Store, today: Date) {
    ApiKeyDateKey in store && store[ApiKeyDateKey] == DateString(today)
  }

  /** What `getValidApiKey` returns. */
  function ValidKey(store: Store, today: Date): Option<string> {
    if ValidForToday(store, today) && ApiKeyStorageKey in store then Some(store[ApiKeyStorageKey]) else None
  }

  /** The storage after `getValidApiKey`: unchanged on the saving day, both
      entries removed on any other. */
  function AfterCheck(store: Store, today: Date): Store {
    if ValidForToday(store, today) then store else store - {ApiKeyStorageKey, ApiKeyDateKey}
  }

  /** The storage after `saveApiKey`. */
  function AfterSave(store: Store, key: string, today: Date): Store {
    store[ApiKeyStorageKey := key][ApiKeyDateKey := DateString(today)]
  }

  /** A key is handed back only when it is stored with today's date; a check
      either leaves the storage alone or removes exactly the two entries. */
  lemma ValidKeySpec(store: Store, today: Date)
    ensures ValidKey(store, today).Some? <==>
      ApiKeyStorageKey in store && ApiKeyDateKey in store && store[ApiKeyDateKey] == DateString(today)
    ensures ValidKey(store, today).Some? ==> ValidKey(store, today).value == store[ApiKeyStorageKey]
    ensures var after := AfterCheck(store, today);
      && (after == store || (ApiKeyStorageKey !in after && ApiKeyDateKey !in after))
      && forall k :: k != ApiKeyStorageKey && k != ApiKeyDateKey ==>
           (k in after <==> k in store) && (k in after ==> after[k] == store[k])
  {
  }

  /** A key saved today is handed back today, and the check keeps it. */
  lemma SavedKeyValidSameDay(store: Store, key: string, today: Date)
    ensures ValidKey(AfterSave(store, key, today), today) == Some(key)
    ensures AfterCheck(AfterSave(store, key, today), today) == AfterSave(store, key, today)
  {
  }

  /** A key saved on another day is refused, and both entries are gone. */
  lemma SavedKeyExpires(store: Store, key: string, saved: Date, today: Date)
    requires ValidDate(saved) && ValidDate(today) && saved != today
    ensures ValidKey(AfterSave(store, key, saved), today) == None
    ensures var after := AfterCheck(AfterSave(store, key, saved), today);
      ApiKeyStorageKey !in after && ApiKeyDateKey !in after
  {
    if DateString(saved) == DateString(today) {
      DateStringInjective(saved, today);
    }
  }

  /** Checking twice on the same day is checking once. */
  lemma CheckIdempotent(store: Store, today: Date)
    ensures AfterCheck(AfterCheck(store, today), today) == AfterCheck(store, today)
    ensures ValidKey(AfterCheck(store, today), today) == ValidKey(store, today)
  {
  }

  /** The storage itself, updated in place. */
  class KeyStore {
    var items: Store

    constructor (items: Store)
      ensures this.items == items
    {
      this.items := items;
    }

    /** `getValidApiKey`. */
    method GetValidApiKey(today: Date) returns (key: Option<string>)
      modifies this
      ensures key == ValidKey(old(items), today)
      ensures items == AfterCheck(old(items), today)
    {
      var stored := if ApiKeyDateKey in items then Some(items[ApiKeyDateKey]) else None;
      if stored != Some(DateString(today)) {
        items := items - {ApiKeyStorageKey};
        items := items - {ApiKeyDateKey};
        return None;
      }
      key := if ApiKeyStorageKey in items then Some(items[ApiKeyStorageKey]) else None;
    }

    /** `saveApiKey`. */
    method SaveApiKey(key: string, today: Date)
      modifies this
      ensures items == AfterSave(old(items), key, today)
    {
      items := items[ApiKeyStorageKey := key];
      items := items[ApiKeyDateKey := DateString(today)];
    }
  }
}
