/** Use-case keys and the per-use-case "collected" gate of the merger. */
module UseCases {
  import opened Text

  function DigitRun(s: string): (n: nat)
    ensures n <= |s|
    ensures n > 0 <==> (s != "" && IsDigit(s[0]))
  {
    if s != "" && IsDigit(s[0]) then 1 + DigitRun(s[1..]) else 0
  }

  /** `re.search(r"BR-UC-(\d+)", name)`: the digits of the leftmost match. */
  function UcNumber(name: string): Option<string> {
    if name == "" then None
    else if "BR-UC-" <= name && DigitRun(name[6..]) > 0 then Some(name[6..6 + DigitRun(name[6..])])
    else UcNumber(name[1..])
  }

  /** `_extract_uc_key`: a filename without a number is echoed as its own key. */
  function UcKey(name: string): string {
    match UcNumber(name)
    case Some(digits) => "UC-" + digits
    case None => name
  }

  /** `collected_ucs`: the keys of the feature files that drivers name, if they look like use cases. */
  function CollectedUcs(named: set<string>): set<string> {
    set name | name in named && "UC-" <= UcKey(name) :: UcKey(name)
  }

  /** A file of a numbered use case is protected if and only if some driver names a file with that number, or
      one that is called like the key itself. */
  lemma NumberedCollectedExactly(named: set<string>, file: string)
    requires UcNumber(file).Some?
    ensures UcKey(file) in CollectedUcs(named)
       <==> exists name :: name in named
                           && (UcNumber(name) == UcNumber(file) || (UcNumber(name).None? && name == UcKey(file)))
  {
    hide UcNumber;
    forall name | name in named
      ensures UcKey(name) == UcKey(file)
         <==> (UcNumber(name) == UcNumber(file) || (UcNumber(name).None? && name == UcKey(file))) {
      SameKeyNumbers(name, file);
    }
  }

  lemma SameKeyNumbers(a: string, b: string)
    ensures UcNumber(a).Some? && UcNumber(b).Some? && UcKey(a) == UcKey(b) ==> UcNumber(a) == UcNumber(b)
  {
    hide UcNumber;
    if UcNumber(a).Some? && UcNumber(b).Some? && UcKey(a) == UcKey(b) {
      assert UcKey(a)[3..] == UcNumber(a).value && UcKey(b)[3..] == UcNumber(b).value;
    }
  }

  /** A feature file that a driver names is protected exactly when its key is a use-case key. */
  lemma NamedFileCollected(named: set<string>, file: string)
    requires file in named
    ensures UcKey(file) in CollectedUcs(named) <==> (UcNumber(file).Some? || "UC-" <= file)
  {
    if UcNumber(file).Some? {
      assert "UC-" <= UcKey(file);
    }
  }

  /** Every feature file of the use case protects all of them. */
  lemma SiblingCollected(named: set<string>, file: string, sibling: string)
    requires sibling in named && UcNumber(sibling).Some? && UcNumber(file) == UcNumber(sibling)
    ensures UcKey(file) in CollectedUcs(named)
  {
    NamedFileCollected(named, sibling);
  }

  /** The gate's blind spot: a `BR-UC-` file without a digit in its name (`BR-UC-GET-PRODUCTS.feature`) is
      never protected, even when a driver names that very file. */
  lemma UnnumberedNeverCollected(named: set<string>, file: string)
    requires "BR-UC-" <= file && forall i | 0 <= i < |file| :: !IsDigit(file[i])
    ensures UcKey(file) !in CollectedUcs(named)
  {
    if UcNumber(file).Some? {
      NumberNeedsDigit(file);
    }
    assert file[0] == 'B';
  }

  lemma {:induction false} NumberNeedsDigit(name: string)
    requires UcNumber(name).Some?
    ensures exists i | 0 <= i < |name| :: IsDigit(name[i])
  {
    if "BR-UC-" <= name && DigitRun(name[6..]) > 0 {
      assert IsDigit(name[6]);
    } else {
      NumberNeedsDigit(name[1..]);
      var i :| 0 <= i < |name[1..]| && IsDigit(name[1..][i]);
      assert IsDigit(name[i + 1]);
    }
  }
}
