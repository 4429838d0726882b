/**
 * One result card of the Google Maps listing (a `div[role='article']`) and the
 * per-card extraction of a business record: the "safe" accessors that turn a
 * failed element lookup into an absent value, and the seven-field record built
 * from them.
 */
module Cards {
  import opened Wrappers

  /** An element found inside a card: its visible text and its attributes. */
  datatype Element = Element(text: string, attributes: map<string, string>)

  /**
   * A card as the browser shows it: for every CSS selector whose lookup inside
   * the card succeeds, the first element it finds. A selector that is not a key
   * is a lookup that raises (no such element, stale element, bad selector).
   */
  datatype Card = Card(found: map<string, Element>)

  /** The six fields of a record that may be missing. */
  datatype Field = Rating | Reviews | Category | Address | Website | Phone

  /** The dictionary built per card; an absent field is None, never a placeholder. */
  datatype Business = Business(
    name: string,
    rating: Option<string>,
    reviews: Option<string>,
    category: Option<string>,
    address: Option<string>,
    website: Option<string>,
    phone: Option<string>)
  {
    function Get(f: Field): Option<string>
    {
      match f
      case Rating => rating
      case Reviews => reviews
      case Category => category
      case Address => address
      case Website => website
      case Phone => phone
    }
  }

  const NameSelector: string := "div.fontHeadlineSmall"
  const RatingSelector: string := "span.MW4etd"
  const ReviewsSelector: string := "span.UY7F9"
  const CategorySelector: string := "div.W4Efsd:first-child > div:first-child"
  const AddressSelector: string := "div.W4Efsd:nth-child(2) > span:nth-child(2)"
  const WebsiteSelector: string := "a[data-item-id='website']"
  const PhoneSelector: string := "a[data-item-id='phone']"
  const WebsiteAttribute: string := "href"

  /** The selector each optional field is read with. */
  function SelectorOf(f: Field): string
  {
    match f
    case Rating => RatingSelector
    case Reviews => ReviewsSelector
    case Category => CategorySelector
    case Address => AddressSelector
    case Website => WebsiteSelector
    case Phone => PhoneSelector
  }

  /** Whether the lookup that reads field `f` succeeds on `card`. */
  predicate LookupSucceeds(card: Card, f: Field)
  {
    && SelectorOf(f) in card.found
    && (f == Website ==> WebsiteAttribute in card.found[WebsiteSelector].attributes)
  }

  /**
   * Each optional field of `b` is None exactly when its lookup on `card`
   * fails, and otherwise holds what the lookup reads: the element's text, or
   * its `href` attribute for the website.
   */
  predicate FieldsRead(card: Card, b: Business)
  {
    forall f: Field ::
      && (b.Get(f).None? <==> !LookupSucceeds(card, f))
      && (LookupSucceeds(card, f) ==>
            b.Get(f) == Some(if f == Website then card.found[WebsiteSelector].attributes[WebsiteAttribute]
                             else card.found[SelectorOf(f)].text))
  }

  /** `extract_element`: the text of the element `selector` finds, or None when the lookup fails. */
  function ExtractElement(card: Card, selector: string): (r: Option<string>)
    ensures r.None? <==> selector !in card.found
    ensures r.Some? ==> r.value == card.found[selector].text
  {
    if selector in card.found then Some(card.found[selector].text) else None
  }

  /**
   * `extract_attribute`: the attribute of the element `selector` finds; None when
   * the element is missing or, as Selenium's get_attribute does, when it lacks
   * the attribute.
   */
  function ExtractAttribute(card: Card, selector: string, attribute: string): (r: Option<string>)
    ensures r.Some? <==> selector in card.found && attribute in card.found[selector].attributes
    ensures r.Some? ==> r.value == card.found[selector].attributes[attribute]
  {
    if selector in card.found && attribute in card.found[selector].attributes
    then Some(card.found[selector].attributes[attribute])
    else None
  }

  /**
   * The body of the per-card loop: the card is skipped (None) when its name
   * lookup fails or yields the empty string; otherwise every optional field is
   * read on its own and the record is built.
   */
  function ExtractRecord(card: Card): (r: Option<Business>)
    ensures r.Some? <==> NameSelector in card.found && card.found[NameSelector].text != ""
    ensures r.Some? ==> r.value.name == card.found[NameSelector].text && r.value.name != ""
    ensures r.Some? ==> FieldsRead(card, r.value)
  {
    var name := ExtractElement(card, NameSelector);
    if name.None? || name.value == "" then None
    else
      Some(Business(
        name.value,
        ExtractElement(card, RatingSelector),
        ExtractElement(card, ReviewsSelector),
        ExtractElement(card, CategorySelector),
        ExtractElement(card, AddressSelector),
        ExtractAttribute(card, WebsiteSelector, WebsiteAttribute),
        ExtractElement(card, PhoneSelector)))
  }

  /** The card with the lookups of the fields in `missing` made to fail. */
  function WithoutFields(card: Card, missing: set<Field>): Card
  {
    Card(card.found - set f | f in missing :: SelectorOf(f))
  }

  /** The seven selectors are pairwise different (they have seven different lengths). */
  lemma SelectorsDistinct(f: Field, g: Field)
    ensures SelectorOf(f) != NameSelector
    ensures f != g ==> SelectorOf(f) != SelectorOf(g)
  {
  }

  /**
   * A card that loses any subset of its optional fields still yields a record
   * with the same name; exactly the lost fields become None and every other
   * field keeps its value.
   */
  lemma MissingFieldsKeepRecord(card: Card, missing: set<Field>)
    requires ExtractRecord(card).Some?
    ensures var r := ExtractRecord(WithoutFields(card, missing));
      && r.Some?
      && r.value.name == ExtractRecord(card).value.name
      && forall f: Field :: r.value.Get(f) == if f in missing then None else ExtractRecord(card).value.Get(f)
  {
  }
}
