/** The values shared by the modules: clicks as the redirect handler records them. */
module Domain {

  datatype Option<+T> = None | Some(value: T)

  /** One click (internal/domain/click_event.go). The database assigns the row id, so it is not here. */
  datatype ClickEvent = ClickEvent(
    hash: string,
    linkID: string,
    sourceLinkID: Option<string>,
    ipAddress: string,
    userAgent: string,
    referer: string,
    browser: string,
    os: string,
    country: string,
    city: string,
    isBot: bool,
    clickedAt: int,
    sourceName: string)

  /** The two clicks agree on everything but the location, which a worker fills in. */
  predicate SameClick(a: ClickEvent, b: ClickEvent) {
    a.(country := b.country, city := b.city) == b
  }
}
