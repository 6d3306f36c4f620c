/**
  The dark-mode flag of the chart view: read from client storage when the
  component is created, flipped by the theme button, and written back as the
  string form of the boolean after every change (and once after the first
  render). Storage is a map from keys to strings; a missing key reads as
  JavaScript's `null`.
 */
module Theme {

  /** The storage key the flag is kept under. */
  const DarkModeKey := "darkMode"

  type Storage = map<string, string>

  /** The button: `setDarkMode(prev => !prev)`. */
  function Toggle(dark: bool): (r: bool)
    ensures r != dark
  {
    !dark
  }

  /** `localStorage.setItem` converts the boolean to its string form. */
  function Encode(dark: bool): (s: string)
    ensures s == "true" || s == "false"
    ensures dark <==> s == "true"
  {
    if dark then "true" else "false"
  }

  /** Writing the flag stores its string form under the key and touches nothing else. */
  function Persist(st: Storage, dark: bool): (st': Storage)
    ensures DarkModeKey in st' && st'[DarkModeKey] in {"true", "false"}
    ensures st'.Keys == st.Keys + {DarkModeKey}
    ensures forall k :: k in st && k != DarkModeKey ==> st'[k] == st[k]
  {
    st[DarkModeKey := Encode(dark)]
  }

  /** `localStorage.getItem("darkMode") === "true"`. */
  function Load(st: Storage): (dark: bool)
    ensures DarkModeKey !in st ==> !dark
  {
    DarkModeKey in st && st[DarkModeKey] == "true"
  }

  /** Toggling twice restores the flag. */
  lemma ToggleTwice(dark: bool)
    ensures Toggle(Toggle(dark)) == dark
  {
  }

  /** What is written is read back unchanged, whatever else storage holds. */
  lemma PersistLoadRoundTrip(st: Storage, dark: bool)
    ensures Load(Persist(st, dark)) == dark
  {
  }

  /** Only the exact string "true" reads as dark: any other stored text reads as light. */
  lemma OnlyTrueLoadsDark(st: Storage)
    requires DarkModeKey in st && st[DarkModeKey] != "true"
    ensures !Load(st)
  {
  }

  /** The component's theme state and the storage it writes to. */
  datatype Session = Session(dark: bool, storage: Storage)

  /** Storage holds the flag the view shows. */
  predicate Consistent(s: Session)
  {
    Load(s.storage) == s.dark
  }

  /** Mount: the flag is read from storage, and the persisting effect runs once. */
  function Mount(st: Storage): (s: Session)
    ensures Consistent(s)
    ensures s.dark == Load(st)
  {
    var dark := Load(st);
    Session(dark, Persist(st, dark))
  }

  /** A click on the theme button: flip the flag, then the effect persists it. */
  function Click(s: Session): (s': Session)
    ensures Consistent(s')
    ensures s'.dark != s.dark
  {
    var dark := Toggle(s.dark);
    Session(dark, Persist(s.storage, dark))
  }

  /** Any number of clicks after mounting. */
  function Clicks(s: Session, n: nat): Session
    decreases n
  {
    if n == 0 then s else Clicks(Click(s), n - 1)
  }

  /**
    After mounting and any number of clicks, storage holds the displayed flag,
    so a reload shows the same theme; the flag is the loaded one flipped once
    per click.
   */
  lemma {:induction false} ReloadRestoresTheme(st: Storage, n: nat)
    ensures Consistent(Clicks(Mount(st), n))
    ensures Mount(Clicks(Mount(st), n).storage).dark == Clicks(Mount(st), n).dark
    ensures Clicks(Mount(st), n).dark == (Load(st) != (n % 2 == 1))
  {
    ClicksKeepConsistent(Mount(st), n);
  }

  lemma {:induction false} ClicksKeepConsistent(s: Session, n: nat)
    requires Consistent(s)
    ensures Consistent(Clicks(s, n))
    ensures Clicks(s, n).dark == (s.dark != (n % 2 == 1))
    decreases n
  {
    if n > 0 {
      ClicksKeepConsistent(Click(s), n - 1);
    }
  }
}
