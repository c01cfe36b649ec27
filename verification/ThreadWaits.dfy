/** Which threads wait for which others while they run, and why they cannot wait for each other in a circle. */
module ThreadWaits {
  const STORAGE := "AnaStorageThread"
  const STORAGE_WATCHER := "AnaStorageWatcher"
  const EXECUTE_STORAGE := "AnaExecuteStorageThread"
  const CONNECTING_NM := "AnaWaitForConnectingNMThread"
  const PAYLOAD := "AnaPayloadThread"
  const RESTART := "AnaPayloadRestartThread"
  const SOFTWARE_WATCHER := "AnaSoftwareWatcher"
  const CHECK_SOFTWARE := "AnaCheckSoftwareThread"
  const SOURCE_WATCHER := "AnaSourceWatcher"
  const INSTALL := "AnaInstallThread"
  const DATE_TIME := "AnaDateTimeThread"
  const TIME_INIT := "AnaTimeInitThread"
  const KEYBOARD_INIT := "AnaKeyboardThread"
  const ADD_LAYOUTS_INIT := "AnaAddLayoutsInitThread"
  const SUBSCRIPTION := "AnaSubscriptionThread"
  const SUBSCRIPTION_SPOKE := "AnaSubscriptionSpokeInitThread"

  /** The target of a thread named n waits for a thread named m: the targets that wait, and what they wait for. The
      installation thread waits for all that is registered but itself. */
  predicate MayWait(n: string, m: string) {
    || (n == PAYLOAD && (m == STORAGE || m == STORAGE_WATCHER || m == EXECUTE_STORAGE || m == CONNECTING_NM ||
                         m == SUBSCRIPTION))
    || (n == RESTART && m == PAYLOAD)
    || (n == STORAGE_WATCHER && m == STORAGE)
    || (n == SUBSCRIPTION && m == CONNECTING_NM)
    || (n == SUBSCRIPTION_SPOKE && (m == SUBSCRIPTION || m == PAYLOAD))
    || (n == SOFTWARE_WATCHER && (m == PAYLOAD || m == CHECK_SOFTWARE))
    || (n == SOURCE_WATCHER && m == PAYLOAD)
    || (n == TIME_INIT && m == STORAGE)
    || (n == DATE_TIME && m == TIME_INIT)
    || (n == KEYBOARD_INIT && m == ADD_LAYOUTS_INIT)
    || (n == INSTALL && m != INSTALL)
  }

  /** How many waits can follow one another below a thread of this name. */
  function Rank(n: string): (r: nat)
    ensures r <= 4
  {
    if n == INSTALL then 4
    else if n == RESTART || n == SUBSCRIPTION_SPOKE || n == SOFTWARE_WATCHER || n == SOURCE_WATCHER then 3
    else if n == PAYLOAD || n == DATE_TIME then 2
    else if n == STORAGE_WATCHER || n == SUBSCRIPTION || n == TIME_INIT || n == KEYBOARD_INIT then 1
    else 0
  }

  /** What tells the names apart. */
  function Mark(s: string): (nat, char, char) {
    if |s| < 5 then (|s|, ' ', ' ') else (|s|, s[3], s[4])
  }

  lemma Marks()
    ensures Mark(STORAGE) == (16, 'S', 't') && Mark(STORAGE_WATCHER) == (17, 'S', 't')
    ensures Mark(EXECUTE_STORAGE) == (23, 'E', 'x') && Mark(CONNECTING_NM) == (28, 'W', 'a')
    ensures Mark(PAYLOAD) == (16, 'P', 'a') && Mark(RESTART) == (23, 'P', 'a')
    ensures Mark(SOFTWARE_WATCHER) == (18, 'S', 'o') && Mark(CHECK_SOFTWARE) == (22, 'C', 'h')
    ensures Mark(SOURCE_WATCHER) == (16, 'S', 'o') && Mark(INSTALL) == (16, 'I', 'n')
    ensures Mark(DATE_TIME) == (17, 'D', 'a') && Mark(TIME_INIT) == (17, 'T', 'i')
    ensures Mark(KEYBOARD_INIT) == (17, 'K', 'e') && Mark(ADD_LAYOUTS_INIT) == (23, 'A', 'd')
    ensures Mark(SUBSCRIPTION) == (21, 'S', 'u') && Mark(SUBSCRIPTION_SPOKE) == (30, 'S', 'u')
  {
  }

  /** Every wait is for a thread of lower rank. */
  lemma RankFalls(n: string, m: string)
    requires MayWait(n, m)
    ensures Rank(m) < Rank(n)
  {
    Marks();
  }
}
