/** What the navigation core consumes from the surrounding platform: the
    viewer, the category and topic records it resolves, and the injectable
    collaborators (database lookups, Guardian#can_see?, URI.parse,
    JSON.parse and the max_panel_items site setting). */
module Collaborators {
  import opened RubyJson

  /** A signed-in viewer: id, trust level (0 to 4, never negative) and the
      names of the groups it belongs to (as stored, before lower-casing). */
  datatype User = User(id: int, trustLevel: nat, groupNames: seq<string>)

  datatype Category = Category(id: int, slug: string)

  /** A topic as the URL resolver sees it. */
  datatype TopicRef = TopicRef(id: int, relativeUrl: string)

  /** What URI.parse reports: the scheme, or no scheme for a relative
      reference, or InvalidURIError. */
  datatype UriParse = Parsed(scheme: Option<string>) | InvalidUri

  datatype Env = Env(
    /** SiteSetting.super_navigation_suite_max_panel_items */
    maxPanelItems: int,
    /** JSON.parse; None stands for JSON::ParserError */
    parseJson: string -> Option<Json>,
    parseUri: string -> UriParse,
    /** ActiveSupport's String#titleize */
    titleize: string -> string,
    /** Category.find_by(id:) and Category.find_by(slug:) */
    categoryById: int -> Option<Category>,
    categoryBySlug: string -> Option<Category>,
    /** Topic.find_by(id:) */
    topicById: int -> Option<TopicRef>,
    /** Guardian.new(user).can_see?(category / topic) */
    canSeeCategory: (Option<User>, Category) -> bool,
    canSeeTopic: (Option<User>, TopicRef) -> bool
  )
}
