/**
 * Exercise media lookup (src/lib/media.ts): a slug from the exercise name, an
 * alias table for misspelt file names, the first existing file among three
 * extensions, and a per-pattern fallback image. The listing of public/exercises
 * is a parameter; `ExerciseFiles` lower-cases it into the set the lookup uses.
 */
module Media {
  import opened Types
  import opened Optional
  import opened Strings
  import opened ObjectPrototype

  datatype Media = Media(thumbnail: string, mediaUrl: string)

  /** `patternMedia`. */
  function PatternMedia(p: Pattern): (r: Media)
    ensures r.thumbnail == r.mediaUrl
  {
    match p
    case PUSH => Media("/exercises/push.svg", "/exercises/push.svg")
    case PULL => Media("/exercises/pull.svg", "/exercises/pull.svg")
    case LEGS => Media("/exercises/legs.svg", "/exercises/legs.svg")
    case CORE => Media("/exercises/core.svg", "/exercises/core.svg")
    case SKILL => Media("/exercises/skill.svg", "/exercises/skill.svg")
    case MOBILITY => Media("/exercises/mobility.svg", "/exercises/mobility.svg")
  }

  /**
   * `aliasMap[slug]`: the three file names that are spelt differently, and
   * otherwise what the object literal inherits under that name.
   */
  function Alias(slug: string): Option<string>
  {
    if slug == "invertedrow" then Some("inverterrow")
    else if slug == "mountainclimber" then Some("mountaingclimber")
    else if slug == "muscleup" then Some("mucleup")
    else Inherited(slug)
  }

  predicate IsSlugChar(c: char) {
    ('a' <= c <= 'z') || ('0' <= c <= '9')
  }

  /** `replace(/90\/90/g, "9090")`: each "90/90", scanning left to right, becomes "9090". */
  function Replace9090(s: string): string
    decreases |s|
  {
    if |s| >= 5 && s[..5] == "90/90" then "9090" + Replace9090(s[5..])
    else if s == [] then []
    else [s[0]] + Replace9090(s[1..])
  }

  /** `replace(/[^a-z0-9]+/g, "")`: every character outside [a-z0-9] removed. */
  function KeepSlugChars(s: string): (r: string)
    ensures forall i :: 0 <= i < |r| ==> IsSlugChar(r[i])
  {
    if s == [] then []
    else (if IsSlugChar(s[0]) then [s[0]] else []) + KeepSlugChars(s[1..])
  }

  /** `replace(/(^-|-$)/g, "")`: one leading and one trailing hyphen removed. */
  function TrimHyphens(s: string): string
  {
    var t := if s != [] && s[0] == '-' then s[1..] else s;
    if t != [] && t[|t| - 1] == '-' then t[..|t| - 1] else t
  }

  /** `slugify`. */
  function Slugify(name: string): string
  {
    TrimHyphens(KeepSlugChars(Replace9090(Lower(name))))
  }

  /** `aliasMap[slug] ?? slug`. */
  function BaseName(name: string): string
  {
    var slug := Slugify(name);
    Alias(slug).GetOr(slug)
  }

  /** `getExerciseFiles`: the directory listing, lower-cased (an unreadable directory lists nothing). */
  function ExerciseFiles(listing: set<string>): (r: set<string>)
    ensures forall f :: f in listing ==> Lower(f) in r
    ensures forall f :: f in r ==> exists g :: g in listing && f == Lower(g)
    ensures forall f :: f in r ==> forall i :: 0 <= i < |f| ==> !('A' <= f[i] <= 'Z')
  {
    set f | f in listing :: Lower(f)
  }

  const Extensions: seq<string> := ["jpg", "png", "svg"]

  /** `${baseName}.${ext}`. */
  function FileName(base: string, ext: string): string
  {
    base + "." + ext
  }

  /** The first extension in `exts` whose file exists, as a file name. */
  function FirstPresent(base: string, exts: seq<string>, files: set<string>): (r: Option<string>)
    ensures r == None <==> forall i :: 0 <= i < |exts| ==> FileName(base, exts[i]) !in files
    ensures r != None ==> exists i :: 0 <= i < |exts| && r == Some(FileName(base, exts[i])) && r.value in files &&
                                     forall j :: 0 <= j < i ==> FileName(base, exts[j]) !in files
  {
    if exts == [] then None
    else if FileName(base, exts[0]) in files then Some(FileName(base, exts[0]))
    else
      var r := FirstPresent(base, exts[1..], files);
      assert forall i :: 1 <= i < |exts| ==> exts[i] == exts[1..][i - 1];
      assert r != None ==> exists i :: 0 <= i < |exts| && r == Some(FileName(base, exts[i])) && r.value in files &&
                                      forall j :: 0 <= j < i ==> FileName(base, exts[j]) !in files by {
        if r != None {
          var i :| 0 <= i < |exts[1..]| && r == Some(FileName(base, exts[1..][i])) && r.value in files &&
                   forall j :: 0 <= j < i ==> FileName(base, exts[1..][j]) !in files;
          assert r == Some(FileName(base, exts[i + 1]));
        }
      }
      r
  }

  /** What `resolveExerciseMedia` returns, as a function. */
  function ResolvedMedia(name: string, pattern: Pattern, files: set<string>): Media
  {
    match FirstPresent(BaseName(name), Extensions, files)
    case Some(file) => Media("/exercises/" + file, "/exercises/" + file)
    case None => PatternMedia(pattern)
  }

  /** `resolveExerciseMedia`: the loop over the extensions with its early return. */
  method ResolveExerciseMedia(name: string, pattern: Pattern, files: set<string>) returns (r: Media)
    ensures r == ResolvedMedia(name, pattern, files)
    ensures r.thumbnail == r.mediaUrl
  {
    var baseName := BaseName(name);
    for i := 0 to |Extensions|
      invariant forall j :: 0 <= j < i ==> FileName(baseName, Extensions[j]) !in files
    {
      var fileName := FileName(baseName, Extensions[i]);
      if fileName in files {
        FirstPresentAt(baseName, Extensions, files, i);
        var url := "/exercises/" + fileName;
        return Media(url, url);
      }
    }
    return PatternMedia(pattern);
  }

  // ---------------------------------------------------------------------------
  // Proofs
  // ---------------------------------------------------------------------------

  /** If the file for extension `i` exists and none before it does, it is the first present. */
  lemma {:induction false} FirstPresentAt(base: string, exts: seq<string>, files: set<string>, i: int)
    requires 0 <= i < |exts| && FileName(base, exts[i]) in files
    requires forall j :: 0 <= j < i ==> FileName(base, exts[j]) !in files
    ensures FirstPresent(base, exts, files) == Some(FileName(base, exts[i]))
    decreases i
  {
    if i > 0 {
      assert forall j :: 0 <= j < i - 1 ==> exts[1..][j] == exts[j + 1];
      FirstPresentAt(base, exts[1..], files, i - 1);
    }
  }

  /** The "90/90" step only drops slashes, which the next step removes anyway. */
  lemma {:induction false} KeepSlugCharsReplace(s: string)
    ensures KeepSlugChars(Replace9090(s)) == KeepSlugChars(s)
    decreases |s|
  {
    if |s| >= 5 && s[..5] == "90/90" {
      KeepSlugCharsReplace(s[5..]);
      KeepSlugCharsAppend("9090", Replace9090(s[5..]));
      assert s == "90/90" + s[5..];
      KeepSlugCharsAppend("90/90", s[5..]);
    } else if s != [] {
      KeepSlugCharsReplace(s[1..]);
    }
  }

  lemma {:induction false} KeepSlugCharsAppend(a: string, b: string)
    ensures KeepSlugChars(a + b) == KeepSlugChars(a) + KeepSlugChars(b)
    decreases |a|
  {
    if a == [] {
      assert a + b == b;
    } else {
      assert (a + b)[1..] == a[1..] + b;
      KeepSlugCharsAppend(a[1..], b);
    }
  }

  /** A string of slug characters has no hyphen to trim. */
  lemma TrimHyphensSlug(s: string)
    requires forall i :: 0 <= i < |s| ==> IsSlugChar(s[i])
    ensures TrimHyphens(s) == s
  {
  }

  /**
   * The slug is the lower-cased name with every character outside [a-z0-9]
   * removed: the "90/90" and hyphen steps change nothing further.
   */
  lemma SlugifyIsFilter(name: string)
    ensures Slugify(name) == KeepSlugChars(Lower(name))
    ensures forall i :: 0 <= i < |Slugify(name)| ==> IsSlugChar(Slugify(name)[i])
  {
    KeepSlugCharsReplace(Lower(name));
    TrimHyphensSlug(KeepSlugChars(Lower(name)));
  }

  /** Lower-casing and filtering leave a slug unchanged. */
  lemma {:induction false} SlugFixed(s: string)
    requires forall i :: 0 <= i < |s| ==> IsSlugChar(s[i])
    ensures Lower(s) == s
    ensures KeepSlugChars(s) == s
    decreases |s|
  {
    if s != [] {
      SlugFixed(s[1..]);
      assert s == [s[0]] + s[1..];
    }
  }

  /** `slugify` is idempotent. */
  lemma SlugifyIdempotent(name: string)
    ensures Slugify(Slugify(name)) == Slugify(name)
  {
    var slug := Slugify(name);
    SlugifyIsFilter(name);
    SlugifyIsFilter(slug);
    SlugFixed(slug);
  }

  /** Names that differ only in case or punctuation share their media. */
  lemma SameSlugSameMedia(a: string, b: string, pattern: Pattern, files: set<string>)
    requires KeepSlugChars(Lower(a)) == KeepSlugChars(Lower(b))
    ensures ResolvedMedia(a, pattern, files) == ResolvedMedia(b, pattern, files)
  {
    SlugifyIsFilter(a);
    SlugifyIsFilter(b);
  }

  /**
   * The base name is the alias when there is one, and the slug otherwise; a
   * slug has an alias exactly when it is one of the three misspelt names or
   * the inherited `constructor`.
   */
  lemma BaseNameAlias(name: string)
    ensures Alias(Slugify(name)).Some? ==> BaseName(name) == Alias(Slugify(name)).value
    ensures Alias(Slugify(name)).None? ==> BaseName(name) == Slugify(name)
    ensures var slug := Slugify(name);
            Alias(slug).Some? <==>
              (slug == "invertedrow" || slug == "mountainclimber" || slug == "muscleup" || slug == "constructor")
  {
    SlugifyIsFilter(name);
    SlugInherited(Slugify(name));
    assert Alias("constructor") == Inherited("constructor");
  }

  /** `constructor` is the only member of `Object.prototype` whose name is a slug. */
  lemma SlugInherited(slug: string)
    requires forall i :: 0 <= i < |slug| ==> IsSlugChar(slug[i])
    ensures Inherited(slug).Some? ==> slug == "constructor"
  {
    InheritedDomain(slug);
    forall k | 1 <= k < |InheritedNames| ensures slug != InheritedNames[k] {
      var w := NonSlugAt(k);
      if |slug| == |InheritedNames[k]| {
        assert IsSlugChar(slug[w]);
      }
    }
  }

  /** A position of a character outside [a-z0-9] in every member name but `constructor`. */
  lemma NonSlugAt(k: int) returns (w: int)
    requires 1 <= k < |InheritedNames|
    ensures 0 <= w < |InheritedNames[k]| && !IsSlugChar(InheritedNames[k][w])
  {
    var name := InheritedNames[k];
    w := if name == "hasOwnProperty" then 3
         else if name == "valueOf" then 5
         else if name == "propertyIsEnumerable" then 8
         else if name == "isPrototypeOf" || name == "toString" || name == "toLocaleString" then 2
         else 0;
  }

  /**
   * An exercise whose slug is "constructor" gets its pattern's media: its base
   * name is the text of the `Object` function, whose upper-case 'O' no
   * lower-cased file name contains.
   */
  lemma ConstructorFallsBack(name: string, pattern: Pattern, listing: set<string>)
    requires Slugify(name) == "constructor"
    ensures BaseName(name) == NativeFunction("Object")
    ensures ResolvedMedia(name, pattern, ExerciseFiles(listing)) == PatternMedia(pattern)
  {
    assert Alias("constructor") == Inherited("constructor");
    ObjectFilesAbsent(ExerciseFiles(listing));
  }

  /** None of the three files named after the `Object` function is among lower-cased names. */
  lemma ObjectFilesAbsent(files: set<string>)
    requires forall g :: g in files ==> forall j :: 0 <= j < |g| ==> !('A' <= g[j] <= 'Z')
    ensures FirstPresent(NativeFunction("Object"), Extensions, files) == None
  {
    var base := NativeFunction("Object");
    UpperNotListed(files, FileName(base, "jpg"), 9);
    UpperNotListed(files, FileName(base, "png"), 9);
    UpperNotListed(files, FileName(base, "svg"), 9);
    assert Extensions[0] == "jpg" && Extensions[1] == "png" && Extensions[2] == "svg";
  }

  /** A name with an upper-case letter is not among lower-cased names. */
  lemma UpperNotListed(files: set<string>, f: string, i: int)
    requires forall g :: g in files ==> forall j :: 0 <= j < |g| ==> !('A' <= g[j] <= 'Z')
    requires 0 <= i < |f| && 'A' <= f[i] <= 'Z'
    ensures f !in files
  {
  }

  /** The fallback is taken exactly when none of the three files exists. */
  lemma FallbackExactly(name: string, pattern: Pattern, files: set<string>)
    ensures FirstPresent(BaseName(name), Extensions, files) == None <==>
            (FileName(BaseName(name), "jpg") !in files && FileName(BaseName(name), "png") !in files &&
             FileName(BaseName(name), "svg") !in files)
  {
    assert Extensions[0] == "jpg" && Extensions[1] == "png" && Extensions[2] == "svg";
  }

  /** A ".jpg" file wins over the others; a ".png" file wins over ".svg". */
  lemma ExtensionPriority(name: string, pattern: Pattern, files: set<string>)
    ensures var base := BaseName(name);
            FileName(base, "jpg") in files ==>
              ResolvedMedia(name, pattern, files).mediaUrl == "/exercises/" + base + ".jpg"
    ensures var base := BaseName(name);
            FileName(base, "jpg") !in files && FileName(base, "png") in files ==>
              ResolvedMedia(name, pattern, files).mediaUrl == "/exercises/" + base + ".png"
  {
    var base := BaseName(name);
    assert Extensions[0] == "jpg" && Extensions[1] == "png";
    if FileName(base, "jpg") in files {
      FirstPresentAt(base, Extensions, files, 0);
    } else if FileName(base, "png") in files {
      FirstPresentAt(base, Extensions, files, 1);
    }
  }
}
