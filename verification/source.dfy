/** Where the menu document is fetched from (`resolveSourceUrl`). The `src`
    query parameter arrives as `URLSearchParams.get`'s result: `None` when the
    parameter is absent. */
module Source {
  import opened Js

  /** The canonical remote menu document. */
  const DefaultRawUrl: string :=
    "https://raw.githubusercontent.com/ceenesbicakci/restoran-menu-app-mobil/main/menu.json"

  /** The local demo document used before deployment. */
  const LocalDemoPath: string := "menu.local.json"

  /** A host where the default remote document is used: GitHub Pages or a
      local development server. */
  predicate KnownHost(hostname: string) {
    Includes(hostname, "github.io") || Includes(hostname, "localhost")
  }

  /** Priority: a non-empty `src` verbatim, then the default remote URL on a
      known host, then the local demo path. */
  function ResolveSourceUrl(src: Option<string>, hostname: string): (r: string)
    ensures r != ""
    ensures src.Some? && src.value != "" ==> r == src.value
    ensures (src.None? || src.value == "") && KnownHost(hostname) ==> r == DefaultRawUrl
    ensures (src.None? || src.value == "") && !KnownHost(hostname) ==> r == LocalDemoPath
  {
    if src.Some? && src.value != "" then src.value
    else if KnownHost(hostname) then DefaultRawUrl
    else LocalDemoPath
  }

  /** A non-empty `src` overrides whatever host the page is served from. */
  lemma SrcOverridesHost(src: string, h1: string, h2: string)
    requires src != ""
    ensures ResolveSourceUrl(Some(src), h1) == ResolveSourceUrl(Some(src), h2) == src
  {
  }

  /** Every GitHub Pages host `<user>.github.io` and `localhost`, with no
      `src` or an empty one, resolve to the default remote document. */
  lemma GithubPagesUsesDefault(user: string, src: Option<string>)
    requires src.None? || src.value == ""
    ensures ResolveSourceUrl(src, user + ".github.io") == DefaultRawUrl
    ensures ResolveSourceUrl(src, "localhost") == DefaultRawUrl
  {
    var host := user + ".github.io";
    assert host[|user| + 1..] == "github.io";
    assert OccursAt(host, "github.io", |user| + 1);
    assert OccursAt("localhost", "localhost", 0);
  }

  /** An example of another host: `example.com` with no `src` resolves to
      the local demo path. */
  lemma OtherHostUsesLocalPath()
    ensures ResolveSourceUrl(None, "example.com") == LocalDemoPath
  {
    forall i | 0 <= i <= |"example.com"| - |"github.io"|
      ensures !OccursAt("example.com", "github.io", i)
    {
      assert "example.com"[i] != "github.io"[0];
    }
    forall i | 0 <= i <= |"example.com"| - |"localhost"|
      ensures !OccursAt("example.com", "localhost", i)
    {
      assert "example.com"[i] != "localhost"[0];
    }
  }
}
