/** DrpApplicationLogLevel and the filter that decides whether an application
    log entry of some level is written under a configured level. */
module LogLevels {

  datatype LogLevel = Information | Warning | Error | Critical

  /** The enumeration's underlying value. */
  function Ordinal(l: LogLevel): (n: nat)
    ensures n <= 3
  {
    match l
    case Information => 0
    case Warning => 1
    case Error => 2
    case Critical => 3
  }

  /** WriteThisLogEntry: an entry is written when its level is at least the
      setting. */
  predicate WriteThisLogEntry(entry: LogLevel, setting: LogLevel) {
    Ordinal(entry) >= Ordinal(setting)
  }

  /** The levels written under each setting, listed one by one. */
  function LevelsWrittenUnder(setting: LogLevel): (s: set<LogLevel>)
    ensures setting in s && Critical in s
  {
    match setting
    case Information => {Information, Warning, Error, Critical}
    case Warning => {Warning, Error, Critical}
    case Error => {Error, Critical}
    case Critical => {Critical}
  }

  /** The comparison agrees with the listed levels. */
  lemma WriteThisLogEntryMatchesList(entry: LogLevel, setting: LogLevel)
    ensures WriteThisLogEntry(entry, setting) <==> entry in LevelsWrittenUnder(setting)
  {
  }

  /** Every level passes its own setting; Critical passes every setting; every
      level passes the setting Information. */
  lemma WriteThisLogEntryBounds(l: LogLevel)
    ensures WriteThisLogEntry(l, l)
    ensures WriteThisLogEntry(Critical, l)
    ensures WriteThisLogEntry(l, Information)
  {
  }

  /** Raising the entry's level or lowering the setting keeps an entry
      written. */
  lemma WriteThisLogEntryMonotone(x: LogLevel, y: LogLevel, s: LogLevel, t: LogLevel)
    requires WriteThisLogEntry(x, s)
    ensures Ordinal(y) >= Ordinal(x) ==> WriteThisLogEntry(y, s)
    ensures Ordinal(t) <= Ordinal(s) ==> WriteThisLogEntry(x, t)
  {
  }

  /** Two distinct levels: exactly one of them passes the other as setting. */
  lemma WriteThisLogEntryAntisymmetric(x: LogLevel, y: LogLevel)
    ensures WriteThisLogEntry(x, y) || WriteThisLogEntry(y, x)
    ensures WriteThisLogEntry(x, y) && WriteThisLogEntry(y, x) ==> x == y
  {
  }
}
