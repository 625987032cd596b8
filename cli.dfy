/**
 * The command-line driver of `dynamic_range.py`: list the directory, keep the
 * names that end (ignoring case) with one of twelve image extensions, run the
 * estimator with its default arguments on each, and print a line for every
 * result that is truthy.
 *
 * The directory listing is an injected sequence of names; a printed line is
 * modelled as the pair of the name and the value, not as formatted text.
 */
module Cli {
  import opened Text
  import opened DynamicRange

  /** The extensions the command line processes, in the order the source lists them. */
  const ImageExtensions: seq<string> :=
    [".jpg", ".jpeg", ".png", ".bmp", ".tif", ".tiff", ".arw", ".dng", ".nef", ".cr2", ".cr3", ".raf"]

  /** The image extensions of four characters, and those of five. */
  const ExtensionsOfLength4: seq<string> :=
    [".jpg", ".png", ".bmp", ".tif", ".arw", ".dng", ".nef", ".cr2", ".cr3", ".raf"]
  const ExtensionsOfLength5: seq<string> := [".jpeg", ".tiff"]

  /** One printed line: `Estimated Dynamic Range for <name>: <stops>`. */
  datatype Line = Line(name: string, stops: real)

  /**
   * The command line processes a file exactly when its lower-cased name ends
   * with an image extension: when its last four or last five characters,
   * lower-cased, are one.
   */
  predicate Selected(name: string): (b: bool)
    ensures b <==>
      || (|name| >= 4 && Lower(name[|name| - 4..]) in ExtensionsOfLength4)
      || (|name| >= 5 && Lower(name[|name| - 5..]) in ExtensionsOfLength5)
  {
    assert forall e :: e in ImageExtensions <==> e in ExtensionsOfLength4 + ExtensionsOfLength5;
    EndsWithAnyAppend(Lower(name), ExtensionsOfLength4, ExtensionsOfLength5);
    EndsWithAnyOfLength(name, ExtensionsOfLength4, 4);
    EndsWithAnyOfLength(name, ExtensionsOfLength5, 5);
    EndsWithAny(Lower(name), ImageExtensions)
  }

  /** Python truthiness of the estimator's result: `None` and `0.0` are false, every other number true. */
  predicate Truthy(o: Outcome): (b: bool)
    ensures b <==> o != Failure && o != Value(0.0)
  {
    o.Value? && o.r != 0.0
  }

  /** `os.path.join(directory, name)` for a POSIX path. */
  function JoinPath(directory: string, name: string): (p: string)
    ensures EndsWith(p, name)
  {
    if |name| > 0 && name[0] == '/' then name
    else if directory == [] || directory[|directory| - 1] == '/' then directory + name
    else directory + "/" + name
  }

  /**
   * The lines printed for the names of a listing, in listing order, given the
   * estimator's result for each name.
   */
  function Report(names: seq<string>, estimate: string -> Outcome): (lines: seq<Line>)
    ensures |lines| <= |names|
    ensures forall l :: l in lines ==>
      l.name in names && Selected(l.name) && estimate(l.name) == Value(l.stops) && l.stops != 0.0
  {
    if names == [] then []
    else
      var n := names[0];
      var rest := Report(names[1..], estimate);
      if Selected(n) && Truthy(estimate(n)) then [Line(n, estimate(n).r)] + rest else rest
  }

  /** The script's main block: the estimator runs on the joined path with its default arguments. */
  function Run(directory: string, names: seq<string>, env: Env): (lines: seq<Line>)
    ensures |lines| <= |names|
    ensures forall l :: l in lines ==>
      && l.name in names && Selected(l.name)
      && CalculateDefault(JoinPath(directory, l.name), env) == Value(l.stops)
      && l.stops != 0.0 && l.stops <= Ceiling
  {
    Report(names, name => CalculateDefault(JoinPath(directory, name), env))
  }

  /** The twelve extensions are the six standard ones followed by the six raw ones. */
  lemma ImageExtensionsSplit()
    ensures ImageExtensions == StandardExtensions + RawExtensions
  {
  }

  /** Selection ignores the case of ASCII letters. */
  lemma SelectedIgnoresCase(a: string, b: string)
    requires EqualIgnoringCase(a, b)
    ensures Selected(a) <==> Selected(b)
  {
    EqualIgnoringCaseIff(a, b);
  }

  /** Every name routed to the raw decoder is selected by the command line. */
  lemma RawRoutedIsSelected(name: string)
    requires RouteOf(name) == Raw
    ensures Selected(name)
  {
    var e :| e in RawExtensions && EndsWith(Lower(name), e);
    ImageExtensionsSplit();
    assert e in ImageExtensions;
  }

  /** A selected name is either routed raw or ends with one of the standard extensions, and then is routed standard. */
  lemma {:induction false} SelectedIff(name: string)
    ensures Selected(name) <==> RouteOf(name) == Raw || EndsWithAny(Lower(name), StandardExtensions)
    ensures EndsWithAny(Lower(name), StandardExtensions) ==> RouteOf(name) == Standard
  {
    ImageExtensionsSplit();
    if Selected(name) {
      var e :| e in ImageExtensions && EndsWith(Lower(name), e);
      assert e in StandardExtensions || e in RawExtensions;
    }
    if EndsWithAny(Lower(name), StandardExtensions) {
      var e :| e in StandardExtensions && EndsWith(Lower(name), e);
      StandardExtensionRoutesStandard(name, e);
    } else if RouteOf(name) == Raw {
      RawRoutedIsSelected(name);
    }
  }

  /** Every image extension has at least four characters. */
  lemma ImageExtensionLength(e: string)
    requires e in ImageExtensions
    ensures |e| >= 4
  {
  }

  /** Joining a selected name onto the directory does not change its route. */
  lemma {:induction false} JoinKeepsRoute(directory: string, name: string)
    requires Selected(name)
    ensures RouteOf(JoinPath(directory, name)) == RouteOf(name)
  {
    var e :| e in ImageExtensions && EndsWith(Lower(name), e);
    ImageExtensionLength(e);
    var p := JoinPath(directory, name);
    if p != name {
      var prefix := p[..|p| - |name|];
      assert p == prefix + name;
      LowerAppend(prefix, name);
      forall r | r in RawExtensions
        ensures EndsWith(Lower(p), r) <==> EndsWith(Lower(name), r)
      {
        RawExtensionLength(r);
        EndsWithAppend(Lower(prefix), Lower(name), r);
      }
    }
  }

  /** Report keeps the listing order: the lines of a concatenation are the lines of each part. */
  lemma {:induction false} ReportAppend(a: seq<string>, b: seq<string>, estimate: string -> Outcome)
    ensures Report(a + b, estimate) == Report(a, estimate) + Report(b, estimate)
  {
    if a == [] {
      assert a + b == b;
    } else {
      assert (a + b)[1..] == a[1..] + b;
      ReportAppend(a[1..], b, estimate);
    }
  }

  /** A line is printed for a listed name exactly when it is selected and its result is truthy. */
  lemma {:induction false} ReportIff(names: seq<string>, estimate: string -> Outcome, name: string)
    ensures (exists l :: l in Report(names, estimate) && l.name == name) <==>
      name in names && Selected(name) && Truthy(estimate(name))
  {
    if names != [] {
      ReportIff(names[1..], estimate, name);
      if name != names[0] {
        assert name in names <==> name in names[1..];
      } else if Selected(name) && Truthy(estimate(name)) {
        assert Report(names, estimate)[0].name == name;
      }
    }
  }

  /** `None` and exactly `0.0` are both skipped silently. */
  lemma FalsyResultSkipped(names: seq<string>, estimate: string -> Outcome, name: string)
    requires estimate(name) == Failure || estimate(name) == Value(0.0)
    ensures forall l :: l in Report(names, estimate) ==> l.name != name
  {
  }

  /** What the script prints for one file: a line exactly for a selected name whose estimate on the joined path is a non-zero number. */
  lemma RunIff(directory: string, names: seq<string>, env: Env, name: string)
    ensures (exists l :: l in Run(directory, names, env) && l.name == name) <==>
      name in names && Selected(name) && Truthy(CalculateDefault(JoinPath(directory, name), env))
    ensures forall l :: l in Run(directory, names, env) ==> l.stops <= Ceiling
  {
    ReportIff(names, n => CalculateDefault(JoinPath(directory, n), env), name);
  }
}
