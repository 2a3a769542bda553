/** Spanish labels of the movement patterns and translation of stored focus strings (src/lib/labels.ts). */
module Labels {
  import opened Types
  import opened Optional
  import opened Strings
  import opened ObjectPrototype

  /** `patternLabels`. */
  function PatternLabel(p: Pattern): string
  {
    match p
    case PUSH => "empuje"
    case PULL => "tracción"
    case LEGS => "piernas"
    case CORE => "zona media"
    case SKILL => "habilidad"
    case MOBILITY => "movilidad"
  }

  /** The pattern whose own record key is `key`, if any. */
  function KeyPattern(key: string): (r: Option<Pattern>)
    ensures forall p :: r == Some(p) <==> PatternKey(p) == key
  {
    if key == "PUSH" then Some(PUSH)
    else if key == "PULL" then Some(PULL)
    else if key == "LEGS" then Some(LEGS)
    else if key == "CORE" then Some(CORE)
    else if key == "SKILL" then Some(Pattern.SKILL)
    else if key == "MOBILITY" then Some(Pattern.MOBILITY)
    else None
  }

  /**
   * `patternLabels[part]` looked up with an arbitrary string key: the label of
   * an own key, otherwise what the object literal inherits under that name.
   */
  function LookupLabel(key: string): Option<string>
  {
    match KeyPattern(key)
    case Some(p) => Some(PatternLabel(p))
    case None => Inherited(key)
  }

  /** One piece of a focus string: trimmed, then replaced by its label when it is a pattern key. */
  function TranslatePart(part: string): string
  {
    var t := Trim(part);
    LookupLabel(t).GetOr(t)
  }

  /** `translateFocus`: split on '+', trim and translate each piece, join with " + ". */
  function TranslateFocus(focus: string): string
  {
    var parts := Split(focus, '+');
    Join(seq(|parts|, i requires 0 <= i < |parts| => TranslatePart(parts[i])), " + ")
  }

  /** The six labels are pairwise distinct, so `patternLabels` is one entry per pattern with no collision. */
  lemma LabelsDistinct(p: Pattern, q: Pattern)
    ensures PatternLabel(p) == PatternLabel(q) <==> p == q
  {
  }

  /** No label is itself a key, holds a '+', or has white space at its ends. */
  lemma LabelShape(p: Pattern)
    ensures LookupLabel(PatternLabel(p)) == None
    ensures '+' !in PatternLabel(p)
    ensures IsTrimmed(PatternLabel(p))
  {
    LabelNotInherited(p);
  }

  /** No label is the name of a member of `Object.prototype`. */
  lemma LabelNotInherited(p: Pattern)
    ensures Inherited(PatternLabel(p)) == None
  {
    match p
    case PUSH =>
    case PULL =>
    case LEGS =>
    case CORE =>
    case SKILL =>
    case MOBILITY =>
  }

  /** No member name of `Object.prototype` is a pattern key: inherited members never shadow a label. */
  lemma InheritedNotKey(key: string)
    requires key in InheritedNames
    ensures KeyPattern(key) == None
  {
  }

  /** A translated piece holds no '+' when its input held none, is trimmed, and translating it again changes nothing. */
  lemma TranslatePartShape(part: string)
    requires '+' !in part
    ensures '+' !in TranslatePart(part)
    ensures IsTrimmed(TranslatePart(part))
    ensures TranslatePart(TranslatePart(part)) == TranslatePart(part)
  {
    var t := Trim(part);
    TrimIsTrimmed(part);
    TrimEndIsPrefix(TrimStart(part));
    TrimStartSuffix(part);
    assert '+' !in t;
    match KeyPattern(t)
    case Some(p) =>
      LabelShape(p);
      TrimmedFixed(PatternLabel(p));
    case None =>
      if Inherited(t).Some? {
        InheritedPartShape(t);
      } else {
        TrimmedFixed(t);
      }
  }

  /** What an inherited member prints as is a trimmed, '+'-free piece that translates to itself. */
  lemma InheritedPartShape(t: string)
    requires Inherited(t).Some?
    ensures var v := Inherited(t).value;
            '+' !in v && IsTrimmed(v) && TranslatePart(v) == v
  {
    InheritedDomain(t);
    InheritedValueShape(t);
    var v := Inherited(t).value;
    TrimmedFixed(v);
    forall p: Pattern ensures PatternKey(p) != v {
      assert PatternKey(p)[0] != v[0];
    }
    assert LookupLabel(v) == None;
  }

  /** A piece naming a member of `Object.prototype` is replaced by what that member prints as. */
  lemma TranslateInherited(key: string)
    requires key in InheritedNames
    ensures TranslatePart(key) == Inherited(key).value
  {
    var i :| 0 <= i < |InheritedNames| && InheritedNames[i] == key;
    NamesShape(i);
    assert IsTrimmed(key);
    TrimmedFixed(key);
    InheritedNotKey(key);
    assert LookupLabel(key) == Inherited(key);
  }

  /** The piece "constructor" translates to the text of the `Object` function. */
  lemma TranslateConstructor()
    ensures TranslatePart("constructor") == "function Object() { [native code] }"
  {
    TrimmedFixed("constructor");
  }

  lemma {:induction false} TrimStartSuffix(s: string)
    ensures |TrimStart(s)| <= |s| && TrimStart(s) == s[|s| - |TrimStart(s)|..]
    decreases |s|
  {
    if s != [] && IsWhitespace(s[0]) {
      TrimStartSuffix(s[1..]);
    }
  }

  /**
   * Translating a " + "-joined list of '+'-free pieces translates each piece:
   * the result is the " + "-joined list of the translated pieces.
   */
  lemma TranslateJoined(qs: seq<string>)
    requires |qs| >= 1
    requires forall i :: 0 <= i < |qs| ==> '+' !in qs[i]
    ensures TranslateFocus(Join(qs, " + ")) ==
            Join(seq(|qs|, i requires 0 <= i < |qs| => TranslatePart(qs[i])), " + ")
  {
    SplitSpacedJoin(qs, '+');
    var parts := Split(Join(qs, " + "), '+');
    var lhs := seq(|parts|, i requires 0 <= i < |parts| => TranslatePart(parts[i]));
    var rhs := seq(|qs|, i requires 0 <= i < |qs| => TranslatePart(qs[i]));
    assert lhs == rhs;
  }

  /** The stored form the planner writes, a " + "-joined list of pattern keys, becomes the " + "-joined list of their labels. */
  lemma TranslateKeys(ps: seq<Pattern>)
    requires |ps| >= 1
    ensures TranslateFocus(Join(seq(|ps|, i requires 0 <= i < |ps| => PatternKey(ps[i])), " + ")) ==
            Join(seq(|ps|, i requires 0 <= i < |ps| => PatternLabel(ps[i])), " + ")
  {
    var keys := seq(|ps|, i requires 0 <= i < |ps| => PatternKey(ps[i]));
    TranslateJoined(keys);
    var translated := seq(|keys|, i requires 0 <= i < |keys| => TranslatePart(keys[i]));
    forall i | 0 <= i < |ps| ensures translated[i] == PatternLabel(ps[i]) {
      TranslateKey(ps[i]);
    }
    assert translated == seq(|ps|, i requires 0 <= i < |ps| => PatternLabel(ps[i]));
  }

  /** A pattern key translates to that pattern's label. */
  lemma TranslateKey(p: Pattern)
    ensures TranslatePart(PatternKey(p)) == PatternLabel(p)
  {
    TrimmedFixed(PatternKey(p));
  }

  /** A focus made of labels (what the planner produces, see Planner.FocusOf) is left unchanged. */
  lemma TranslateLabelsFixed(ps: seq<Pattern>)
    ensures TranslateFocus(Join(seq(|ps|, i requires 0 <= i < |ps| => PatternLabel(ps[i])), " + ")) ==
            Join(seq(|ps|, i requires 0 <= i < |ps| => PatternLabel(ps[i])), " + ")
  {
    var labels := seq(|ps|, i requires 0 <= i < |ps| => PatternLabel(ps[i]));
    if |ps| == 0 {
      assert TranslateFocus("") == TranslatePart("");
    } else {
      forall i | 0 <= i < |ps| ensures '+' !in labels[i] {
        LabelShape(ps[i]);
      }
      TranslateJoined(labels);
      var translated := seq(|labels|, i requires 0 <= i < |labels| => TranslatePart(labels[i]));
      forall i | 0 <= i < |ps| ensures translated[i] == labels[i] {
        LabelShape(ps[i]);
        TrimmedFixed(labels[i]);
      }
      assert translated == labels;
    }
  }

  /** `translateFocus` is idempotent. */
  lemma TranslateIdempotent(focus: string)
    ensures TranslateFocus(TranslateFocus(focus)) == TranslateFocus(focus)
  {
    var parts := Split(focus, '+');
    SplitShape(focus, '+');
    var qs := seq(|parts|, i requires 0 <= i < |parts| => TranslatePart(parts[i]));
    forall i | 0 <= i < |qs| ensures '+' !in qs[i] {
      TranslatePartShape(parts[i]);
    }
    TranslateJoined(qs);
    var again := seq(|qs|, i requires 0 <= i < |qs| => TranslatePart(qs[i]));
    forall i | 0 <= i < |qs| ensures again[i] == qs[i] {
      TranslatePartShape(parts[i]);
    }
    assert again == qs;
  }

  /** Translation keeps the number of '+'-separated pieces. */
  lemma TranslateKeepsPieces(focus: string)
    ensures |Split(TranslateFocus(focus), '+')| == |Split(focus, '+')|
  {
    var parts := Split(focus, '+');
    SplitShape(focus, '+');
    var qs := seq(|parts|, i requires 0 <= i < |parts| => TranslatePart(parts[i]));
    forall i | 0 <= i < |qs| ensures '+' !in qs[i] {
      TranslatePartShape(parts[i]);
    }
    SplitSpacedJoin(qs, '+');
  }
}
