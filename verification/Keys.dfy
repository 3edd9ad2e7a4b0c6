/** The keys the runtime uses in the shared store, all under one prefix. */
module Keys {
  import opened Decimal

  datatype Name =
    | Lease(identity: string)
    | Counter
    | Commands(owner: string)
    | Results(id: string)
    | Completions(id: string)
    | Rate(subject: string, window: int)

  /** What follows the prefix. */
  function Tail(name: Name): (tail: string) {
    match name
    case Lease(identity) => ":session:" + identity
    case Counter => ":session:generation"
    case Commands(owner) => ":commands:" + owner
    case Results(id) => ":command-results:" + id
    case Completions(id) => ":command-completions:" + id
    case Rate(subject, window) => ":command-rate:" + (subject + ":" + Print(window))
  }

  function Key(prefix: string, name: Name): (key: string) { prefix + Tail(name) }

  lemma SameHead(head: string, a: string, b: string)
    requires head + a == head + b
    ensures a == b
  {
    assert (head + a)[|head|..] == a && (head + b)[|head|..] == b;
  }

  lemma OnlyOneLastColon(text: string, i: nat, j: nat)
    requires i < |text| && text[i] == ':' && ':' !in text[i + 1..]
    requires j < |text| && text[j] == ':' && ':' !in text[j + 1..]
    ensures i == j
  {
    forall k | i < k < |text| ensures text[k] != ':' { assert text[k] == text[i + 1..][k - i - 1]; }
    forall k | j < k < |text| ensures text[k] != ':' { assert text[k] == text[j + 1..][k - j - 1]; }
  }

  /** The last colon separates the subject from the window, whatever the subject holds. */
  lemma RateTailInjective(subject: string, window: int, subject': string, window': int)
    requires subject + ":" + Print(window) == subject' + ":" + Print(window')
    ensures subject == subject' && window == window'
  {
    var text := subject + ":" + Print(window);
    PrintHasNoColon(window);
    PrintHasNoColon(window');
    assert text[|subject| + 1..] == Print(window) && text[|subject'| + 1..] == Print(window');
    OnlyOneLastColon(text, |subject|, |subject'|);
    assert text[..|subject|] == subject && text[..|subject'|] == subject';
    PrintInjective(window, window');
  }

  /** The one pair of names with a common key. */
  predicate Clash(a: Name, b: Name) {
    (a == Lease("generation") && b == Counter) || (a == Counter && b == Lease("generation"))
  }

  /** The first characters of a tail tell the kinds of key apart. */
  lemma KindsDiffer(a: Name, b: Name)
    requires Tail(a) == Tail(b)
    ensures
      || (a.Commands? && b.Commands?) || (a.Results? && b.Results?) || (a.Completions? && b.Completions?)
      || (a.Rate? && b.Rate?) || ((a.Lease? || a.Counter?) && (b.Lease? || b.Counter?))
  {
    assert Tail(a)[1] == 's' <==> a.Lease? || a.Counter?;
    assert Tail(b)[1] == 's' <==> b.Lease? || b.Counter?;
    if Tail(a)[1] != 's' {
      assert Tail(a)[8] == Tail(b)[8];
      if Tail(a)[8] == '-' {
        assert Tail(a)[9] == Tail(b)[9] && Tail(a)[10] == Tail(b)[10];
      }
    }
  }

  /** Two names share a key only if they are equal, or are the counter and the lease of station "generation". */
  lemma KeySeparation(prefix: string, a: Name, b: Name)
    ensures Key(prefix, a) == Key(prefix, b) <==> a == b || Clash(a, b)
  {
    if Key(prefix, a) == Key(prefix, b) {
      SameHead(prefix, Tail(a), Tail(b));
      KindsDiffer(a, b);
      SameTail(a, b);
    }
  }

  lemma SameTail(a: Name, b: Name)
    requires Tail(a) == Tail(b)
    requires
      || (a.Commands? && b.Commands?) || (a.Results? && b.Results?) || (a.Completions? && b.Completions?)
      || (a.Rate? && b.Rate?) || ((a.Lease? || a.Counter?) && (b.Lease? || b.Counter?))
    ensures a == b || Clash(a, b)
  {
    match a
    case Lease(x) =>
      SameHead(":session:", x, if b.Lease? then b.identity else "generation");
    case Counter =>
      if b.Lease? { SameHead(":session:", "generation", b.identity); }
    case Commands(x) => SameHead(":commands:", x, b.owner);
    case Results(x) => SameHead(":command-results:", x, b.id);
    case Completions(x) => SameHead(":command-completions:", x, b.id);
    case Rate(x, w) =>
      SameHead(":command-rate:", x + ":" + Print(w), b.subject + ":" + Print(b.window));
      RateTailInjective(x, w, b.subject, b.window);
  }
}
