/**
 * Daily log partitions: the file a record is appended to is named after the
 * date part of an ISO-8601 timestamp, inside the `logs` directory beside the
 * program.
 */
module LogFiles {
  import opened Wrappers

  /** The directory, relative to the program's own, that holds the partitions. */
  const LogsDirectory: string := "logs"
  const FilePrefix: string := "translations-"
  const FileSuffix: string := ".jsonl"

  /** Where a partition lives. */
  datatype LogPath = LogPath(directory: string, file: string)

  /**
   * `s.split('T')[0]`: everything before the first 'T', or all of `s` when
   * it has none.
   */
  function DatePrefix(s: string): (r: string)
    ensures r <= s
    ensures 'T' !in r
    ensures |r| < |s| ==> s[|r|] == 'T'
  {
    if s == [] then []
    else if s[0] == 'T' then []
    else [s[0]] + DatePrefix(s[1..])
  }

  /** The three properties of `DatePrefix` determine it. */
  lemma DatePrefixUnique(s: string, r: string)
    requires r <= s && 'T' !in r && (|r| < |s| ==> s[|r|] == 'T')
    ensures DatePrefix(s) == r
  {
  }

  predicate IsDigit(c: char) {
    '0' <= c <= '9'
  }

  /**
   * The shape `Date.prototype.toISOString` gives for years 0 to 9999:
   * `YYYY-MM-DDTHH:mm:ss.sssZ`.
   */
  predicate IsIsoTimestamp(s: string) {
    |s| == 24 &&
    (forall i :: i in {0, 1, 2, 3, 5, 6, 8, 9, 11, 12, 14, 15, 17, 18, 20, 21, 22} ==> IsDigit(s[i])) &&
    s[4] == '-' && s[7] == '-' && s[10] == 'T' && s[13] == ':' && s[16] == ':' &&
    s[19] == '.' && s[23] == 'Z'
  }

  /** For such a timestamp the partition date is its first ten characters. */
  lemma DateOfIsoTimestamp(s: string)
    requires IsIsoTimestamp(s)
    ensures DatePrefix(s) == s[..10]
  {
    assert forall i :: 0 <= i < 10 ==> IsDigit(s[i]) || s[i] == '-';
    DatePrefixUnique(s, s[..10]);
  }

  /** `translations-<date>.jsonl` for the date of `now`. */
  function LogFileName(now: string): string {
    FilePrefix + DatePrefix(now) + FileSuffix
  }

  /** `getLogFilePath()` for the clock reading `now`. */
  function LogFilePath(now: string): (p: LogPath)
    ensures p.directory == LogsDirectory
  {
    LogPath(LogsDirectory, LogFileName(now))
  }

  /** The date a partition file name stands for, if it is one. */
  function DateOfLogFileName(name: string): (r: Option<string>)
    ensures r.Some? ==> name == FilePrefix + r.value + FileSuffix
  {
    if |name| >= |FilePrefix| + |FileSuffix|
      && name[..|FilePrefix|] == FilePrefix
      && name[|name| - |FileSuffix|..] == FileSuffix
    then Some(name[|FilePrefix|..|name| - |FileSuffix|])
    else None
  }

  /** The date can be read back from the file name. */
  lemma DateOfLogFileNameInverts(now: string)
    ensures DateOfLogFileName(LogFileName(now)) == Some(DatePrefix(now))
  {
    var name := LogFileName(now);
    var d := DatePrefix(now);
    assert name[..|FilePrefix|] == FilePrefix;
    assert name[|name| - |FileSuffix|..] == FileSuffix;
    assert name[|FilePrefix|..|name| - |FileSuffix|] == d;
  }

  /** Two clock readings share a partition exactly when they share a date. */
  lemma SamePartitionIff(a: string, b: string)
    ensures LogFilePath(a) == LogFilePath(b) <==> DatePrefix(a) == DatePrefix(b)
  {
    if LogFilePath(a) == LogFilePath(b) {
      DateOfLogFileNameInverts(a);
      DateOfLogFileNameInverts(b);
    }
  }

  /** For an ISO timestamp the file is `translations-YYYY-MM-DD.jsonl`. */
  lemma IsoLogFileName(now: string)
    requires IsIsoTimestamp(now)
    ensures LogFilePath(now) == LogPath("logs", "translations-" + now[..10] + ".jsonl")
    ensures |LogFilePath(now).file| == 29
  {
    DateOfIsoTimestamp(now);
  }
}
