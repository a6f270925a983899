/** The slice of WordPress state the plugin reads and writes: posts, post meta,
    authors and the URL-to-post lookup. Writes go through a `WriteOutcome` decided by
    the environment, because `update_post_meta` and `wp_update_post` can fail
    (or report "unchanged") for reasons outside the plugin. */
module WordPress {
  import opened Common

  /** A post, page or attachment. `publishedOn` and `modifiedOn` are the
      dates formatted 'F j, Y', as the plugin compares and prints them;
      `publishedAt` and `modifiedAt` are the same moments as Unix times
      ('U'), to the second. */
  datatype Post = Post(
    title: string,
    content: string,
    categories: seq<string>,
    thumbnailUrl: Option<string>,
    publishedOn: string,
    modifiedOn: string,
    publishedAt: int,
    modifiedAt: int,
    author: int)

  /** A user as the author meta functions report it. */
  datatype User = User(displayName: string, description: string, postsUrl: string, avatarUrl: string)

  datatype Site = Site(
    posts: map<int, Post>,
    meta: map<(int, string), string>,
    attachmentIds: map<string, int>,
    users: map<int, User>)

  /** How a write went: stored, or refused (with the WP_Error message when
      the API returns one). */
  datatype WriteOutcome = Stored | Refused(message: Option<string>)

  const MetaDescriptionKey := "_yoast_wpseo_metadesc"
  const TitleTagKey := "_yoast_wpseo_title"
  const AltTextKey := "_wp_attachment_image_alt"
  const SchemaKey := "sap_schema_markup"
  const H1Key := "sap_h1_tag"

  function GetPost(site: Site, id: int): Option<Post> {
    if id in site.posts then Some(site.posts[id]) else None
  }

  /** `get_post_meta($id, $key, true)`: the empty string when unset. */
  function GetMeta(site: Site, id: int, key: string): string {
    if (id, key) in site.meta then site.meta[(id, key)] else ""
  }

  /** `url_to_postid`: 0 when the URL names no post. */
  function UrlToPostId(site: Site, url: string): int {
    if url in site.attachmentIds then site.attachmentIds[url] else 0
  }

  /** `update_post_meta`: the value is stored only when the write succeeds. */
  function UpdateMeta(site: Site, id: int, key: string, value: string, w: WriteOutcome): (r: Site)
    ensures w.Stored? ==> GetMeta(r, id, key) == value
    ensures w.Refused? ==> r == site
    ensures forall i, k :: (i, k) != (id, key) ==> GetMeta(r, i, k) == GetMeta(site, i, k)
    ensures r.posts == site.posts && r.attachmentIds == site.attachmentIds && r.users == site.users
  {
    if w.Stored? then site.(meta := site.meta[(id, key) := value]) else site
  }

  /** `delete_post_meta`: the key reads as "" afterwards. */
  function DeleteMeta(site: Site, id: int, key: string): (r: Site)
    ensures GetMeta(r, id, key) == ""
    ensures forall i, k :: (i, k) != (id, key) ==> GetMeta(r, i, k) == GetMeta(site, i, k)
    ensures r.posts == site.posts && r.attachmentIds == site.attachmentIds && r.users == site.users
  {
    site.(meta := site.meta - {(id, key)})
  }

  /** `wp_update_post` with a new body: stored only when the write succeeds
      and the post exists. */
  function UpdateContent(site: Site, id: int, content: string, w: WriteOutcome): (r: Site)
    ensures w.Stored? && id in site.posts ==> GetPost(r, id) == Some(site.posts[id].(content := content))
    ensures w.Refused? || id !in site.posts ==> r == site
    ensures forall i :: i != id ==> GetPost(r, i) == GetPost(site, i)
    ensures r.meta == site.meta && r.attachmentIds == site.attachmentIds && r.users == site.users
  {
    if w.Stored? && id in site.posts then
      site.(posts := site.posts[id := site.posts[id].(content := content)])
    else site
  }

  /** `get_the_author_meta($field, $id)`: every field is empty for an
      unknown user. */
  function GetUser(site: Site, id: int): User {
    if id in site.users then site.users[id] else User("", "", "", "")
  }

  /** `update_user_meta($id, 'description', $value)`: stored only when the
      write succeeds and the user exists. */
  function UpdateUserDescription(site: Site, id: int, value: string, w: WriteOutcome): (r: Site)
    ensures w.Stored? && id in site.users ==> GetUser(r, id) == GetUser(site, id).(description := value)
    ensures w.Refused? || id !in site.users ==> r == site
    ensures forall i :: i != id ==> GetUser(r, i) == GetUser(site, i)
    ensures r.posts == site.posts && r.meta == site.meta && r.attachmentIds == site.attachmentIds
  {
    if w.Stored? && id in site.users then
      site.(users := site.users[id := site.users[id].(description := value)])
    else site
  }
}
