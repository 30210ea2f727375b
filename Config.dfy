/**
 * Application settings (app/config.py): the administrator list read from the
 * `ADMIN_IDS` environment variable, and the administrator test.
 */
module Config {
  import opened Wrappers
  import opened Text

  /** The part of `Settings` the core reads. */
  datatype Settings = Settings(adminIds: seq<int>)

  /** `int()` raised `ValueError` on this (stripped) entry, so no settings object is built. */
  datatype ConfigError = NotAnInteger(entry: string)

  /** The entries of the comma-split list that are not blank, stripped, in order. */
  function NonBlankEntries(parts: seq<string>): (r: seq<string>)
    ensures |r| <= |parts|
    ensures forall k | 0 <= k < |r| :: r[k] != ""
  {
    if parts == [] then []
    else if Strip(parts[0]) == "" then NonBlankEntries(parts[1..])
    else [Strip(parts[0])] + NonBlankEntries(parts[1..])
  }

  /**
   * The filter works part by part: filtering a concatenation filters each
   * side, so every part is kept, stripped, or dropped in its own place.
   */
  lemma {:induction false} NonBlankEntriesAppend(a: seq<string>, b: seq<string>)
    ensures NonBlankEntries(a + b) == NonBlankEntries(a) + NonBlankEntries(b)
    decreases |a|
  {
    if a == [] {
      assert a + b == b;
    } else {
      assert (a + b)[0] == a[0] && (a + b)[1..] == a[1..] + b;
      NonBlankEntriesAppend(a[1..], b);
    }
  }

  /** Every non-blank part is kept, stripped, and every entry kept is a stripped part. */
  lemma {:induction false} NonBlankEntriesMembers(parts: seq<string>)
    ensures forall k | 0 <= k < |parts| && Strip(parts[k]) != "" :: Strip(parts[k]) in NonBlankEntries(parts)
    ensures forall e | e in NonBlankEntries(parts) :: exists k | 0 <= k < |parts| :: e == Strip(parts[k])
    decreases |parts|
  {
    if parts != [] {
      var rest := parts[1..];
      NonBlankEntriesMembers(rest);
      assert forall k | 1 <= k < |parts| :: parts[k] == rest[k - 1];
      forall e | e in NonBlankEntries(parts) ensures exists k | 0 <= k < |parts| :: e == Strip(parts[k]) {
        if e in NonBlankEntries(rest) {
          var k :| 0 <= k < |rest| && e == Strip(rest[k]);
          assert parts[k + 1] == rest[k];
        }
      }
    }
  }

  /**
   * `read(x)` for each entry in turn, raising at the first entry it rejects;
   * the settings read each entry with `int`.
   */
  function ReadEach(read: string -> Option<int>, entries: seq<string>): Result<seq<int>, ConfigError> {
    if entries == [] then Ok([])
    else match read(entries[0])
      case None => Err(NotAnInteger(entries[0]))
      case Some(v) =>
        match ReadEach(read, entries[1..])
        case Ok(vs) => Ok([v] + vs)
        case Err(e) => Err(e)
  }

  /**
   * `Settings.__post_init__`: the list `[int(x.strip()) for x in raw.split(",") if x.strip()]`;
   * an unset or empty `ADMIN_IDS` means no administrators.
   */
  function LoadSettings(adminIdsEnv: Option<string>): Result<Settings, ConfigError> {
    var raw := adminIdsEnv.GetOr("");
    if raw == "" then Ok(Settings([]))
    else
      match ReadEach(ParseInt, NonBlankEntries(Split(raw, ',')))
      case Ok(ids) => Ok(Settings(ids))
      case Err(e) => Err(e)
  }

  /** `Settings.is_admin`. */
  predicate IsAdmin(settings: Settings, userId: int) {
    userId in settings.adminIds
  }

  /** `read` accepts every entry. */
  ghost predicate AllRead(read: string -> Option<int>, entries: seq<string>) {
    forall k | 0 <= k < |entries| :: read(entries[k]).Some?
  }

  /** The list is read entry by entry: it succeeds exactly when every entry is accepted. */
  lemma {:induction false} ReadEachSucceeds(read: string -> Option<int>, entries: seq<string>)
    ensures ReadEach(read, entries).Ok? <==> AllRead(read, entries)
  {
    if entries != [] {
      var rest := entries[1..];
      ReadEachSucceeds(read, rest);
      assert forall k | 0 <= k < |rest| :: entries[k + 1] == rest[k];
    }
  }

  /** A successful read holds the values of the entries, in their order. */
  lemma {:induction false} ReadEachValues(read: string -> Option<int>, entries: seq<string>)
    requires ReadEach(read, entries).Ok?
    ensures |ReadEach(read, entries).value| == |entries|
    ensures forall k | 0 <= k < |entries| :: read(entries[k]) == Some(ReadEach(read, entries).value[k])
  {
    if entries != [] {
      var rest := entries[1..];
      ReadEachValues(read, rest);
      forall k | 1 <= k < |entries| ensures read(entries[k]) == Some(ReadEach(read, entries).value[k]) {
        assert entries[k] == rest[k - 1];
      }
    }
  }

  /** A failed read names the first entry that is rejected. */
  lemma {:induction false} ReadEachError(read: string -> Option<int>, entries: seq<string>)
    requires ReadEach(read, entries).Err?
    ensures exists k | 0 <= k < |entries| ::
      && ReadEach(read, entries).error == NotAnInteger(entries[k])
      && read(entries[k]).None?
      && AllRead(read, entries[..k])
  {
    if read(entries[0]).Some? {
      var rest := entries[1..];
      ReadEachError(read, rest);
      var k :| 0 <= k < |rest| && ReadEach(read, rest).error == NotAnInteger(rest[k])
        && read(rest[k]).None? && AllRead(read, rest[..k]);
      assert entries[k + 1] == rest[k];
      assert entries[..k + 1] == [entries[0]] + rest[..k];
    } else {
      assert AllRead(read, entries[..0]);
    }
  }

  /** The comma-joined rendering of a list of ids, as one would write `ADMIN_IDS`. */
  function RenderIds(ids: seq<int>): string {
    Join(RenderEach(ids), ",")
  }

  function RenderEach(ids: seq<int>): (r: seq<string>)
    ensures |r| == |ids| && forall k | 0 <= k < |ids| :: r[k] == IntToString(ids[k])
  {
    if ids == [] then [] else [IntToString(ids[0])] + RenderEach(ids[1..])
  }

  lemma IntToStringShape(x: int)
    ensures IntToString(x) != "" && ',' !in IntToString(x)
    ensures !IsSpace(IntToString(x)[0]) && !IsSpace(IntToString(x)[|IntToString(x)| - 1])
  {
    var s := IntToString(x);
    assert forall i | 0 <= i < |s| :: IsDigit(s[i]) || s[i] == '-';
  }

  /** Splitting a joined list on a separator no entry contains gives the list back. */
  lemma {:induction false} SplitJoin(parts: seq<string>, c: char)
    requires |parts| >= 1
    requires forall k | 0 <= k < |parts| :: c !in parts[k]
    ensures Split(Join(parts, [c]), c) == parts
    decreases |parts|
  {
    if |parts| > 1 {
      var s := Join(parts, [c]);
      assert s == parts[0] + [c] + Join(parts[1..], [c]);
      assert s[|parts[0]|] == c;
      assert s[..|parts[0]|] == parts[0];
      assert IndexOf(s, c) == |parts[0]|;
      assert s[|parts[0]| + 1..] == Join(parts[1..], [c]);
      SplitJoin(parts[1..], c);
    }
  }

  /** Reading back rendered ids with a reader that inverts the rendering gives the ids. */
  lemma {:induction false} ReadRendered(read: string -> Option<int>, ids: seq<int>)
    requires forall k | 0 <= k < |ids| :: read(IntToString(ids[k])) == Some(ids[k])
    ensures ReadEach(read, RenderEach(ids)) == Ok(ids)
    decreases |ids|
  {
    if ids != [] {
      var parts := RenderEach(ids);
      assert parts[1..] == RenderEach(ids[1..]);
      assert forall k | 0 <= k < |ids| - 1 :: ids[1..][k] == ids[k + 1];
      ReadRendered(read, ids[1..]);
      assert [ids[0]] + ids[1..] == ids;
    }
  }

  /** Rendered ids are neither blank nor padded, so the filter keeps them as they are. */
  lemma {:induction false} NonBlankOfRendered(ids: seq<int>)
    ensures NonBlankEntries(RenderEach(ids)) == RenderEach(ids)
    decreases |ids|
  {
    if ids != [] {
      var parts := RenderEach(ids);
      IntToStringShape(ids[0]);
      StripKeeps(parts[0]);
      assert parts[1..] == RenderEach(ids[1..]);
      NonBlankOfRendered(ids[1..]);
    }
  }

  /**
   * Writing a list of ids into `ADMIN_IDS` and loading the settings gives the
   * same list back, so `is_admin` holds for exactly the listed ids.
   */
  lemma LoadRenderedIds(ids: seq<int>, userId: int)
    ensures LoadSettings(Some(RenderIds(ids))) == Ok(Settings(ids))
    ensures IsAdmin(LoadSettings(Some(RenderIds(ids))).value, userId) <==> userId in ids
  {
    var parts := RenderEach(ids);
    if ids != [] {
      forall k | 0 <= k < |parts| ensures ',' !in parts[k] {
        IntToStringShape(ids[k]);
      }
      IntToStringShape(ids[0]);
      assert RenderIds(ids) != "" by {
        if |parts| > 1 {
          assert RenderIds(ids) == parts[0] + "," + Join(parts[1..], ",");
        }
      }
      SplitJoin(parts, ',');
      NonBlankOfRendered(ids);
      forall k | 0 <= k < |ids| ensures ParseInt(IntToString(ids[k])) == Some(ids[k]) {
        ParseIntOfIntToString(ids[k]);
      }
      ReadRendered(ParseInt, ids);
    }
  }

  /** An unset or empty `ADMIN_IDS` makes nobody an administrator. */
  lemma NobodyIsAdminByDefault(env: Option<string>, userId: int)
    requires env == None || env == Some("")
    ensures LoadSettings(env) == Ok(Settings([]))
    ensures !IsAdmin(LoadSettings(env).value, userId)
  {
  }

  /** The value the test configuration uses: `ADMIN_IDS=123456789`. */
  lemma TestAdminList()
    ensures LoadSettings(Some("123456789")) == Ok(Settings([123456789]))
    ensures IsAdmin(LoadSettings(Some("123456789")).value, 123456789)
    ensures !IsAdmin(LoadSettings(Some("123456789")).value, 999999999)
  {
    TestIdRendered();
    LoadRenderedIds([123456789], 123456789);
  }

  lemma TestIdRendered()
    ensures RenderIds([123456789]) == "123456789"
  {
    assert NatToString(1) == "1";
    assert NatToString(12) == "12";
    assert NatToString(123) == "123";
    assert NatToString(1234) == "1234";
    assert NatToString(12345) == "12345";
    assert NatToString(123456) == "123456";
    assert NatToString(1234567) == "1234567";
    assert NatToString(12345678) == "12345678";
    assert NatToString(123456789) == "123456789";
  }
}
