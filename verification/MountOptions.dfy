/** The normal form of mount options. */
module MountOptions {
  import opened Text

  predicate Dropped(option: string, readOnly: bool) {
    option == "" || (readOnly && option == "rw")
  }

  /** The options that stay, in order. */
  function Kept(options: seq<string>, readOnly: bool): seq<string> {
    if options == [] then []
    else (if Dropped(options[0], readOnly) then [] else [options[0]]) + Kept(options[1..], readOnly)
  }

  function Trimmed(parts: seq<string>): seq<string> {
    seq(|parts|, i requires 0 <= i < |parts| => TrimSpace(parts[i]))
  }

  function Parts(values: seq<string>): seq<string> {
    Split(Join(values, ','), ',')
  }

  /** The list with ro at its end if it lacks it. */
  function WithReadOnly(options: seq<string>): seq<string> {
    if "ro" in options then options else options + ["ro"]
  }

  function Normalized(values: seq<string>, readOnly: bool): seq<string> {
    var kept := Kept(Trimmed(Parts(values)), readOnly);
    if readOnly then WithReadOnly(kept) else kept
  }

  lemma {:induction false} KeptAppend(options: seq<string>, last: string, readOnly: bool)
    ensures Kept(options + [last], readOnly)
         == Kept(options, readOnly) + if Dropped(last, readOnly) then [] else [last]
  {
    if options == [] {
      assert options + [last] == [last];
    } else {
      KeptAppend(options[1..], last, readOnly);
      assert (options + [last])[1..] == options[1..] + [last];
    }
  }

  method NormalizeMountOptions(values: seq<string>, readOnly: bool) returns (options: seq<string>)
    ensures options == Normalized(values, readOnly)
  {
    options := [];
    var hasReadOnly := false;
    var parts := Parts(values);
    ghost var trimmed := Trimmed(parts);
    for i := 0 to |parts|
      invariant options == Kept(trimmed[..i], readOnly)
      invariant hasReadOnly <==> "ro" in options
    {
      var option := TrimSpace(parts[i]);
      KeptAppend(trimmed[..i], option, readOnly);
      assert trimmed[..i] + [option] == trimmed[..i + 1];
      if option == "" || (readOnly && option == "rw") {
        continue;
      }
      if option == "ro" {
        hasReadOnly := true;
      }
      options := options + [option];
    }
    assert trimmed[..|parts|] == trimmed;
    if !readOnly || hasReadOnly {
      return;
    }
    options := options + ["ro"];
  }

  // ---------------------------------------------------------------- the normal form

  /** A single option: not empty, no comma, and nothing to trim. */
  predicate Clean(option: string) {
    option != "" && ',' !in option && TrimSpace(option) == option
  }

  lemma TrimmedClean(part: string)
    requires ',' !in part && TrimSpace(part) != ""
    ensures Clean(TrimSpace(part))
  {
    TrimSpaceFixes(TrimSpace(part));
  }

  /** What stays is what is listed and not dropped. */
  lemma {:induction false} KeptMembers(options: seq<string>, readOnly: bool)
    ensures forall option :: option in Kept(options, readOnly) <==> option in options && !Dropped(option, readOnly)
  {
    if options != [] {
      KeptMembers(options[1..], readOnly);
      assert options == [options[0]] + options[1..];
    }
  }

  lemma TrimmedMembers(parts: seq<string>)
    requires forall part | part in parts :: ',' !in part
    ensures forall option | option in Trimmed(parts) :: option == "" || Clean(option)
  {
    forall i | 0 <= i < |parts| && TrimSpace(parts[i]) != "" ensures Clean(TrimSpace(parts[i])) {
      TrimmedClean(parts[i]);
    }
  }

  lemma ReadOnlyClean(ro: string)
    requires ro == "ro"
    ensures Clean(ro) && !Dropped(ro, true)
  {
    assert ro[1] == 'o' && "rw"[1] == 'w';
    TrimSpaceFixes(ro);
  }

  ghost predicate AllClean(options: seq<string>, readOnly: bool) {
    forall option | option in options :: Clean(option) && !Dropped(option, readOnly)
  }

  lemma KeptClean(options: seq<string>, readOnly: bool)
    requires forall option | option in options :: option == "" || Clean(option)
    ensures AllClean(Kept(options, readOnly), readOnly)
  {
    KeptMembers(options, readOnly);
  }

  lemma WithReadOnlyClean(options: seq<string>, ro: string)
    requires AllClean(options, true) && ro == "ro"
    ensures AllClean(WithReadOnly(options), true)
  {
    ReadOnlyClean(ro);
    OneMoreClean(options, ro, true);
  }

  lemma OneMoreClean(options: seq<string>, last: string, readOnly: bool)
    requires AllClean(options, readOnly) && Clean(last) && !Dropped(last, readOnly)
    ensures AllClean(options + [last], readOnly)
  {
  }

  lemma NormalizedClean(values: seq<string>, readOnly: bool)
    ensures AllClean(Normalized(values, readOnly), readOnly)
  {
    var trimmed := Trimmed(Parts(values));
    TrimmedMembers(Parts(values));
    KeptClean(trimmed, readOnly);
    if readOnly {
      WithReadOnlyClean(Kept(trimmed, true), "ro");
    }
  }

  lemma {:induction false} AllKept(options: seq<string>, readOnly: bool)
    requires forall option | option in options :: !Dropped(option, readOnly)
    ensures Kept(options, readOnly) == options
  {
    if options != [] {
      assert options == [options[0]] + options[1..];
      AllKept(options[1..], readOnly);
    }
  }

  lemma CleanTrimmed(options: seq<string>)
    requires forall option | option in options :: Clean(option)
    ensures Trimmed(options) == options
  {
    forall i | 0 <= i < |options| ensures TrimSpace(options[i]) == options[i] {
      assert options[i] in options;
    }
  }

  /** Joining the options for the command line and splitting them again gives the same list. */
  lemma JoinedOptionsSplit(values: seq<string>, readOnly: bool)
    requires Normalized(values, readOnly) != []
    ensures Split(Join(Normalized(values, readOnly), ','), ',') == Normalized(values, readOnly)
  {
    NormalizedClean(values, readOnly);
    SplitJoin(Normalized(values, readOnly), ',');
  }

  lemma NoOptionsStayNone(readOnly: bool)
    ensures Kept(Trimmed(Parts([])), readOnly) == []
  {
    assert Parts([]) == [""];
    TrimSpaceFixes("");
    assert Trimmed([""]) == [""];
    assert [""][1..] == [];
  }

  /** Normalizing a second time changes nothing. */
  lemma NormalizeIdempotent(values: seq<string>, readOnly: bool)
    ensures Normalized(Normalized(values, readOnly), readOnly) == Normalized(values, readOnly)
  {
    var options := Normalized(values, readOnly);
    if options == [] {
      NoOptionsStayNone(readOnly);
    } else {
      NormalizedClean(values, readOnly);
      JoinedOptionsSplit(values, readOnly);
      CleanTrimmed(options);
      AllKept(options, readOnly);
    }
  }

  /** A read-only mount says ro and never rw. */
  lemma ReadOnlyEnforced(values: seq<string>)
    ensures "ro" in Normalized(values, true) && "rw" !in Normalized(values, true)
  {
    NormalizedClean(values, true);
  }

  /** An option given among the values: a part between commas, trimmed. */
  ghost predicate Given(values: seq<string>, option: string) {
    exists part :: part in Split(Join(values, ','), ',') && TrimSpace(part) == option
  }

  /** The result holds exactly the options given, but no empty one and no rw when read-only, and ro then in any case. */
  lemma NormalizedMembers(values: seq<string>, readOnly: bool, option: string)
    ensures option in Normalized(values, readOnly) <==>
              || (Given(values, option) && option != "" && !(readOnly && option == "rw"))
              || (readOnly && option == "ro")
  {
    var parts := Split(Join(values, ','), ',');
    KeptMembers(Trimmed(parts), readOnly);
    assert option in Trimmed(parts) <==> Given(values, option) by {
      if Given(values, option) {
        var part :| part in parts && TrimSpace(part) == option;
        var i :| 0 <= i < |parts| && parts[i] == part;
        assert Trimmed(parts)[i] == option;
      }
    }
  }

  /** How often an option stands in a list. */
  function Times(options: seq<string>, option: string): nat {
    if options == [] then 0 else (if options[0] == option then 1 else 0) + Times(options[1..], option)
  }

  /** What is kept is kept as often as it was given: nothing is merged or repeated. */
  lemma {:induction false} KeptTimes(options: seq<string>, readOnly: bool, option: string)
    ensures Times(Kept(options, readOnly), option) == if Dropped(option, readOnly) then 0 else Times(options, option)
  {
    if options != [] {
      KeptTimes(options[1..], readOnly, option);
      var kept := Kept(options, readOnly);
      if !Dropped(options[0], readOnly) {
        assert kept[0] == options[0] && kept[1..] == Kept(options[1..], readOnly);
      } else {
        assert kept == Kept(options[1..], readOnly);
      }
    }
  }

  // ---------------------------------------------------------------- order

  /** The result is what was given without what is dropped, in order and as often, with ro at the end if it was missing. */
  lemma NormalizedInOrder(values: seq<string>, readOnly: bool) returns (kept: seq<string>)
    ensures Subsequence(kept, Trimmed(Split(Join(values, ','), ',')))
    ensures forall option :: option != "" && !(readOnly && option == "rw") ==>
              Times(kept, option) == Times(Trimmed(Split(Join(values, ','), ',')), option)
    ensures Normalized(values, readOnly) == kept + if readOnly && "ro" !in kept then ["ro"] else []
  {
    var trimmed := Trimmed(Split(Join(values, ','), ','));
    kept := Kept(trimmed, readOnly);
    KeptInOrder(trimmed, readOnly);
    forall option ensures Times(kept, option) == if Dropped(option, readOnly) then 0 else Times(trimmed, option) {
      KeptTimes(trimmed, readOnly, option);
    }
  }

  ghost predicate Subsequence(a: seq<string>, b: seq<string>) {
    || a == []
    || (b != [] && (Subsequence(a, b[1..]) || (a[0] == b[0] && Subsequence(a[1..], b[1..]))))
  }

  /** The options keep the order in which they were given. */
  lemma {:induction false} KeptInOrder(options: seq<string>, readOnly: bool)
    ensures Subsequence(Kept(options, readOnly), options)
  {
    if options != [] {
      KeptInOrder(options[1..], readOnly);
      if !Dropped(options[0], readOnly) {
        var kept := Kept(options, readOnly);
        assert kept == [options[0]] + Kept(options[1..], readOnly);
        assert kept[0] == options[0] && kept[1..] == Kept(options[1..], readOnly);
        assert Subsequence(kept[1..], options[1..]);
      } else {
        assert Kept(options, readOnly) == Kept(options[1..], readOnly);
      }
    }
  }

  // ---------------------------------------------------------------- the mount command

  function MountArgs(device: string, path: string, fsType: string, options: seq<string>): seq<string> {
    ["--make-shared", "-t", fsType] + (if |options| > 0 then ["-o", Join(options, ',')] else []) + [device, path]
  }

  /** mount gets the options as one word after -o exactly when there are any, and reads them back as the list. */
  lemma MountArgsCarryOptions(device: string, path: string, fsType: string, values: seq<string>, readOnly: bool)
    ensures var args := MountArgs(device, path, fsType, Normalized(values, readOnly));
            if Normalized(values, readOnly) == [] then !readOnly && "-o" !in args[3..|args| - 2]
            else |args| == 7 && args[3] == "-o" && Split(args[4], ',') == Normalized(values, readOnly)
  {
    if Normalized(values, readOnly) != [] {
      JoinedOptionsSplit(values, readOnly);
    }
  }
}
