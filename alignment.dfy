/**
 * The custom serde codec of a character's alignment `(Order, Morality)`.
 * Human-readable formats carry it as one string such as "Chaotic Evil";
 * other formats carry it as a 2-tuple of the two enum values.
 */
module Alignment {
  import opened Wrappers
  import opened Whitespace
  import opened Props

  type Pair = (Order, Morality)

  const MissingOrder := "Missing order"
  const MissingMorality := "Missing morality"
  const InvalidOrderMessage := "Invalid order"
  const InvalidMoralityMessage := "Invalid morality"

  /**
   * A deserialisation error: the visitor's own `de::Error::custom` messages,
   * the data format's complaint that the input is neither a string nor a
   * tuple where one was asked for, and the enum decoder's rejection of an
   * unknown variant index.
   */
  datatype DeError = Custom(msg: string) | InvalidType | InvalidVariantIndex(index: nat)

  /** What the serialiser is handed: a string, or a tuple of encoded elements. */
  datatype Encoded = Str(text: string) | Tuple(elements: seq<nat>)

  /** The human-readable form: the order's name, one space, the morality's name. */
  function FormatAlignment(a: Pair): (s: string)
    ensures Tokens(s) == [OrderName(a.0), MoralityName(a.1)]
  {
    NamesAreWords(a);
    assert AllWhitespace(" ");
    TokensSplitAtWhitespace(OrderName(a.0), " ", MoralityName(a.1));
    OrderName(a.0) + " " + MoralityName(a.1)
  }

  /** The human-readable form is the two names joined by a single space. */
  lemma FormatTokens(a: Pair)
    ensures FormatAlignment(a) == Join([OrderName(a.0), MoralityName(a.1)], " ")
  {
  }

  /** Each name is a single token, and the separator is whitespace. */
  lemma NamesAreWords(a: Pair)
    ensures IsWord(OrderName(a.0)) && IsWord(MoralityName(a.1))
    ensures Tokens(OrderName(a.0)) == [OrderName(a.0)]
    ensures Tokens(MoralityName(a.1)) == [MoralityName(a.1)]
  {
    TokensOfWord(OrderName(a.0));
    TokensOfWord(MoralityName(a.1));
  }

  /**
   * `visit_str` as a value: the first two whitespace-separated tokens name
   * the order and the morality. The four failures come in a fixed order:
   * a missing order, then a missing morality, then an unknown order name
   * (before the second token is looked at), then an unknown morality name.
   * Tokens after the second are ignored.
   */
  function ParseAlignment(s: string): (r: Result<Pair, DeError>)
    ensures r == Failure(Custom(MissingOrder)) <==> Tokens(s) == []
    ensures r == Failure(Custom(MissingMorality)) <==> |Tokens(s)| == 1
    ensures r == Failure(Custom(InvalidOrderMessage)) <==>
              |Tokens(s)| >= 2 && forall o :: Tokens(s)[0] != OrderName(o)
    ensures r == Failure(Custom(InvalidMoralityMessage)) <==>
              && |Tokens(s)| >= 2
              && (exists o :: Tokens(s)[0] == OrderName(o))
              && forall m :: Tokens(s)[1] != MoralityName(m)
    ensures forall a: Pair :: r == Success(a) <==>
              |Tokens(s)| >= 2 && Tokens(s)[0] == OrderName(a.0) && Tokens(s)[1] == MoralityName(a.1)
  {
    var parts := Tokens(s);
    if |parts| == 0 then Failure(Custom(MissingOrder))
    else if |parts| == 1 then Failure(Custom(MissingMorality))
    else
      match ParseOrder(parts[0])
      case Failure(_) => Failure(Custom(InvalidOrderMessage))
      case Success(order) =>
        match ParseMorality(parts[1])
        case Failure(_) => Failure(Custom(InvalidMoralityMessage))
        case Success(morality) => Success((order, morality))
  }

  /**
   * `visit_str` step by step: the token iterator is advanced twice, each
   * token is checked for presence first, and only then are they parsed.
   */
  method VisitStr(value: string) returns (r: Result<Pair, DeError>)
    ensures r == ParseAlignment(value)
  {
    var parts := new SplitWhitespace(value);
    var orderPart := parts.Next();
    if orderPart.None? {
      return Failure(Custom(MissingOrder));
    }
    var moralityPart := parts.Next();
    if moralityPart.None? {
      return Failure(Custom(MissingMorality));
    }
    var order := ParseOrder(orderPart.value);
    if order.Failure? {
      return Failure(Custom(InvalidOrderMessage));
    }
    var morality := ParseMorality(moralityPart.value);
    if morality.Failure? {
      return Failure(Custom(InvalidMoralityMessage));
    }
    r := Success((order.value, morality.value));
  }

  /** The serde variant index of an order: its position in the declaration. */
  function OrderIndex(o: Order): nat
  {
    match o
    case Lawful => 0
    case Neutral => 1
    case Chaotic => 2
  }

  /** The serde variant index of a morality: its position in the declaration. */
  function MoralityIndex(m: Morality): nat
  {
    match m
    case Good => 0
    case Neutral => 1
    case Evil => 2
  }

  /** The derived decoder of `Order`: a known variant index, or an error naming the index. */
  function DecodeOrder(i: nat): (r: Result<Order, DeError>)
    ensures forall o :: r == Success(o) <==> i == OrderIndex(o)
    ensures r.Failure? ==> r.error == InvalidVariantIndex(i)
  {
    if i == 0 then Success(Order.Lawful)
    else if i == 1 then Success(Order.Neutral)
    else if i == 2 then Success(Order.Chaotic)
    else Failure(InvalidVariantIndex(i))
  }

  /** The derived decoder of `Morality`: a known variant index, or an error naming the index. */
  function DecodeMorality(i: nat): (r: Result<Morality, DeError>)
    ensures forall m :: r == Success(m) <==> i == MoralityIndex(m)
    ensures r.Failure? ==> r.error == InvalidVariantIndex(i)
  {
    if i == 0 then Success(Morality.Good)
    else if i == 1 then Success(Morality.Neutral)
    else if i == 2 then Success(Morality.Evil)
    else Failure(InvalidVariantIndex(i))
  }

  /**
   * `visit_seq`: the first element is decoded as the order (its error, if
   * any, comes first), then the second as the morality; a sequence too short
   * for either reports the missing one. Further elements are not read.
   */
  function VisitSeq(elements: seq<nat>): (r: Result<Pair, DeError>)
    ensures r == Failure(Custom(MissingOrder)) <==> elements == []
    ensures r == Failure(Custom(MissingMorality)) <==>
              |elements| == 1 && DecodeOrder(elements[0]).Success?
    ensures |elements| >= 1 && (forall o :: elements[0] != OrderIndex(o)) ==>
              r == Failure(InvalidVariantIndex(elements[0]))
    ensures |elements| >= 2 && (exists o :: elements[0] == OrderIndex(o))
              && (forall m :: elements[1] != MoralityIndex(m)) ==>
              r == Failure(InvalidVariantIndex(elements[1]))
    ensures forall a: Pair :: r == Success(a) <==>
              |elements| >= 2 && elements[0] == OrderIndex(a.0) && elements[1] == MoralityIndex(a.1)
  {
    if |elements| == 0 then Failure(Custom(MissingOrder))
    else
      match DecodeOrder(elements[0])
      case Failure(e) => Failure(e)
      case Success(order) =>
        if |elements| == 1 then Failure(Custom(MissingMorality))
        else
          match DecodeMorality(elements[1])
          case Failure(e) => Failure(e)
          case Success(morality) => Success((order, morality))
  }

  /**
   * `alignment::serialize`: a string for human-readable formats, otherwise a
   * 2-tuple with the order first and the morality second.
   */
  function Serialize(a: Pair, humanReadable: bool): (e: Encoded)
    ensures e.Str? <==> humanReadable
    ensures e.Str? ==> e.text == FormatAlignment(a)
    ensures e.Str? ==> Tokens(e.text) == [OrderName(a.0), MoralityName(a.1)]
    ensures e.Tuple? ==> |e.elements| == 2
    ensures e.Tuple? ==> DecodeOrder(e.elements[0]) == Success(a.0)
    ensures e.Tuple? ==> DecodeMorality(e.elements[1]) == Success(a.1)
  {
    if humanReadable then Str(FormatAlignment(a))
    else Tuple([OrderIndex(a.0), MoralityIndex(a.1)])
  }

  /**
   * `alignment::deserialize`: human-readable formats are asked for a string
   * and the visitor parses it; other formats are asked for a 2-tuple. The
   * format is taken to honour that request, so it refuses input of the other
   * shape as an invalid type.
   */
  function Deserialize(e: Encoded, humanReadable: bool): (r: Result<Pair, DeError>)
    ensures humanReadable && e.Str? ==> r == ParseAlignment(e.text)
    ensures !humanReadable && e.Tuple? ==> r == VisitSeq(e.elements)
    ensures humanReadable != e.Str? ==> r == Failure(InvalidType)
  {
    if humanReadable then
      match e
      case Str(text) => ParseAlignment(text)
      case Tuple(_) => Failure(InvalidType)
    else
      match e
      case Tuple(elements) => VisitSeq(elements)
      case Str(_) => Failure(InvalidType)
  }

  /** Parsing the human-readable form gives back the same pair, "Neutral Neutral" included. */
  lemma FormatThenParse(a: Pair)
    ensures ParseAlignment(FormatAlignment(a)) == Success(a)
  {
  }

  /** Distinct pairs have distinct human-readable forms. */
  lemma FormatInjective(a: Pair, b: Pair)
    requires FormatAlignment(a) == FormatAlignment(b)
    ensures a == b
  {
    FormatThenParse(a);
    FormatThenParse(b);
  }

  /** Serialising and then deserialising with the same format gives back the pair. */
  lemma SerializeThenDeserialize(a: Pair, humanReadable: bool)
    ensures Deserialize(Serialize(a, humanReadable), humanReadable) == Success(a)
  {
  }

  /**
   * Whitespace of any kind and amount before, between and after the two
   * names is tolerated, and anything after the morality's separator is ignored.
   */
  lemma ParsePadded(lead: string, gap: string, tail: string, rest: string, a: Pair)
    requires AllWhitespace(lead)
    requires gap != [] && AllWhitespace(gap)
    requires AllWhitespace(tail) && (tail == [] ==> rest == [])
    ensures ParseAlignment(lead + OrderName(a.0) + gap + MoralityName(a.1) + tail + rest) == Success(a)
  {
    NamesAreWords(a);
    var s := lead + OrderName(a.0) + gap + MoralityName(a.1) + tail + rest;
    FirstTwoTokens(lead, OrderName(a.0), gap, MoralityName(a.1), tail, rest);
    assert |Tokens(s)| >= 2 && Tokens(s)[0] == OrderName(a.0) && Tokens(s)[1] == MoralityName(a.1);
  }

  /** A blank string, whitespace of any kind or none at all, lacks the order. */
  lemma BlankIsMissingOrder(w: string)
    requires AllWhitespace(w)
    ensures ParseAlignment(w) == Failure(Custom(MissingOrder))
  {
    BlankHasNoTokens(w);
  }

  /** A single word, however padded and whatever it says, lacks the morality. */
  lemma OneWordIsMissingMorality(lead: string, word: string, tail: string)
    requires AllWhitespace(lead) && IsWord(word) && AllWhitespace(tail)
    ensures ParseAlignment(lead + word + tail) == Failure(Custom(MissingMorality))
  {
    TokensOfWord(word);
    BlankHasNoTokens(tail);
    assert lead + word + tail == lead + (word + tail);
    TokensSkipWhitespace(lead, word + tail);
    if tail != [] {
      assert word + tail == word + tail + [];
      TokensSplitAtWhitespace(word, tail, []);
    } else {
      assert word + tail == word;
    }
  }

  /**
   * An unknown first word is reported as an invalid order whatever follows
   * it: the second word is not examined, even when it is no morality either.
   */
  lemma InvalidOrderReportedFirst(first: string, gap: string, second: string)
    requires IsWord(first) && IsWord(second)
    requires gap != [] && AllWhitespace(gap)
    requires forall o :: first != OrderName(o)
    ensures ParseAlignment(first + gap + second) == Failure(Custom(InvalidOrderMessage))
  {
    FirstTwoTokens([], first, gap, second, [], []);
    assert [] + first + gap + second + [] + [] == first + gap + second;
  }

  /** "Chaotic Evil extra": a third token does not matter. */
  lemma ExtraTokenIgnored()
    ensures ParseAlignment("Chaotic Evil extra") == Success((Order.Chaotic, Morality.Evil))
  {
    assert AllWhitespace(" ");
    ParsePadded("", " ", " ", "extra", (Order.Chaotic, Morality.Evil));
    assert "" + "Chaotic" + " " + "Evil" + " " + "extra" == "Chaotic Evil extra";
  }

  /** The alignment a fresh character starts with is written "Neutral Neutral". */
  lemma NeutralNeutralText()
    ensures FormatAlignment((Order.Neutral, Morality.Neutral)) == "Neutral Neutral"
  {
  }
}
