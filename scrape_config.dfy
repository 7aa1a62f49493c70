/** Scraper settings of `data_scraping/common/config.py`: the Watcha page URLs and the
    XPath table whose `*_template` entries carry an `{i}` list-index placeholder. */
module ScrapeConfig {
  import opened Wrappers
  import opened PyText

  const WatchaBaseUrl: string := "https://pedia.watcha.com/ko-KR"

  /** The `{i}` placeholder that `str.format(i=...)` fills in. */
  const Placeholder: string := "{i}"

  /** The settings the URL and XPath helpers read; `baseUrl` may be overridden. */
  datatype Config = Config(baseUrl: string, xpaths: map<string, string>)

  // Common prefixes of the XPath entries, up to the list index, in short pieces.
  const RootSection: string := "//*[@id=\"root\"]/div[1]/section"
  const InfoHeader: string := RootSection + "/div/div[2]/div/div/div[1]" + "/div[2]/div/"
  const InfoBody: string := RootSection + "/div/div[2]/div/div/div[2]" + "/section[1]/div[2]/section["
  const CreditItem: string := "//*[@id=\"content_credits\"]" + "/section/div[1]/ul/li["
  const CommentItem: string := RootSection + "/div[2]/ul/li["
  const RatingItem: string := RootSection + "/section/div[1]/section/div[1]" + "/div/ul/li["

  /** The default `XPATHS` table. */
  const XPaths: map<string, string> := map[
    "movie_title" := InfoHeader + "h1/text()",
    "movie_basic_info" := InfoHeader + "div[2]/text()",
    "movie_additional_info" := InfoHeader + "div[3]/text()",
    "movie_synopsis" := InfoBody + "3]/p/text()",
    "movie_avg_rating" := InfoBody + "1]/div[2]/div/div[1]/text()",
    "movie_n_rating" := InfoBody + "1]/div[2]/div/div[2]/text()",
    "movie_n_comments" := "/html/body/div[1]/div[1]/section" + "/div/div[2]/section/section[2]" + "/header/span/text()",
    "cast_name_template" := CreditItem + Placeholder + "]/a/div[2]/div[1]/div[1]/text()",
    "cast_role_template" := CreditItem + Placeholder + "]/a/div[2]/div[1]/div[2]/text()",
    "comment_custom_id_template" := CommentItem + Placeholder + "]/article/a[1]",
    "comment_text_template" := CommentItem + Placeholder + "]/article/a[2]/p",
    "comment_rating_template" := CommentItem + Placeholder + "]/article/a[1]/header/div[2]/p",
    "comment_likes_template" := CommentItem + Placeholder + "]/article/ul/li[1]/button/span",
    "comment_spoiler_button_template" := CommentItem + Placeholder + "]/article/a[2]/p/button",
    "user_movie_id_template" := RatingItem + Placeholder + "]/a/@href",
    "user_movie_name_template" := RatingItem + Placeholder + "]/a/div[2]/div[1]/text()",
    "user_movie_rating_template" := RatingItem + Placeholder + "]/a/div[2]/div[2]/text()"
  ]

  const DefaultConfig: Config := Config(WatchaBaseUrl, XPaths)

  // ---------------------------------------------------------------- URLs

  function GetMovieUrl(c: Config, movieId: string): (r: string)
    ensures IsPrefix(c.baseUrl + "/contents/", r) && r[|c.baseUrl + "/contents/"|..] == movieId
  {
    c.baseUrl + "/contents/" + movieId
  }

  function GetCommentsUrl(c: Config, movieId: string): (r: string)
    ensures r == GetMovieUrl(c, movieId) + "/comments"
  {
    c.baseUrl + "/contents/" + movieId + "/comments"
  }

  function GetUserRatingsUrl(c: Config, customId: string): (r: string)
    ensures IsPrefix(c.baseUrl + "/users/", r)
    ensures r[|c.baseUrl + "/users/"|..] == customId + "/contents/movies/ratings"
  {
    c.baseUrl + "/users/" + customId + "/contents/movies/ratings"
  }

  /** Different movie ids give different page URLs, and the id is the URL's tail. */
  lemma MovieUrlInjective(c: Config, a: string, b: string)
    requires GetMovieUrl(c, a) == GetMovieUrl(c, b)
    ensures a == b
  {
    var p := c.baseUrl + "/contents/";
    assert GetMovieUrl(c, a)[|p|..] == a;
    assert GetMovieUrl(c, b)[|p|..] == b;
  }

  /** Different users give different ratings URLs. */
  lemma UserRatingsUrlInjective(c: Config, a: string, b: string)
    requires GetUserRatingsUrl(c, a) == GetUserRatingsUrl(c, b)
    ensures a == b
  {
    var p := c.baseUrl + "/users/";
    var q := "/contents/movies/ratings";
    assert GetUserRatingsUrl(c, a)[|p|..] == a + q;
    assert GetUserRatingsUrl(c, b)[|p|..] == b + q;
    assert (a + q)[..|a|] == a;
    assert (b + q)[..|b|] == b;
  }

  // ---------------------------------------------------------------- XPath templates

  /** `template.format(i=v)` for templates whose only replacement field is `{i}`:
      each `{i}` becomes `v`, everything else is copied. */
  function FillPlaceholder(t: string, v: string): (r: string)
    ensures !Contains(t, Placeholder) ==> r == t
    decreases |t|
  {
    if |t| == 0 then ""
    else if IsPrefix(Placeholder, t) then v + FillPlaceholder(t[3..], v)
    else [t[0]] + FillPlaceholder(t[1..], v)
  }

  /** What `get_xpath(key, **kwargs)` returns: `None` for an unknown key, the raw
      entry without keyword arguments (or for an empty entry), otherwise the entry
      formatted, which raises `KeyError` when it needs `i` and `i` is not given. */
  function GetXpath(c: Config, key: string, kwargs: map<string, string>): (r: Result<Option<string>>)
    ensures key !in c.xpaths ==> r == Ok(None)
    ensures key in c.xpaths && (kwargs == map[] || c.xpaths[key] == "") ==> r == Ok(Some(c.xpaths[key]))
    ensures key in c.xpaths && !Contains(c.xpaths[key], Placeholder) ==> r == Ok(Some(c.xpaths[key]))
    ensures r.Err? <==> key in c.xpaths && kwargs != map[] && Contains(c.xpaths[key], Placeholder) && "i" !in kwargs
  {
    if key !in c.xpaths then Ok(None)
    else
      var t := c.xpaths[key];
      if t == "" || kwargs == map[] then Ok(Some(t))
      else if Contains(t, Placeholder) && "i" !in kwargs then Err(KeyError)
      else Ok(Some(FillPlaceholder(t, if "i" in kwargs then kwargs["i"] else "")))
  }

  /** `{i}` never starts inside a string without `{`. */
  lemma {:induction false} NoBraceNoPlaceholder(s: string)
    requires '{' !in s
    ensures !Contains(s, Placeholder)
    decreases |s|
  {
    assert !IsPrefix(Placeholder, s) by {
      if |s| >= 3 { assert s[0] != Placeholder[0]; }
    }
    if |s| > 0 {
      NoBraceNoPlaceholder(s[1..]);
    }
  }

  /** A placeholder found at position `k` is found by `Contains`. */
  lemma {:induction false} ContainsAt(s: string, k: nat)
    requires k <= |s| && IsPrefix(Placeholder, s[k..])
    ensures Contains(s, Placeholder)
    decreases k
  {
    if k > 0 {
      assert s[1..][k - 1..] == s[k..];
      ContainsAt(s[1..], k - 1);
    }
  }

  /** Filling leaves a brace-free string alone. */
  lemma {:induction false} FillBraceFree(s: string, v: string)
    requires '{' !in s
    ensures FillPlaceholder(s, v) == s
  {
    NoBraceNoPlaceholder(s);
  }

  lemma FillStep(t: string, v: string)
    requires |t| > 0 && t[0] != '{'
    ensures FillPlaceholder(t, v) == [t[0]] + FillPlaceholder(t[1..], v)
  {
    assert !IsPrefix(Placeholder, t) by {
      if |t| >= 3 { assert t[0] != Placeholder[0]; }
    }
  }

  /** Filling a brace-free prefix, the placeholder and a brace-free suffix puts `v`
      exactly where the placeholder was. */
  lemma {:induction false} FillTemplate(p: string, s: string, v: string)
    requires '{' !in p && '{' !in s
    ensures FillPlaceholder(p + Placeholder + s, v) == p + v + s
    decreases |p|
  {
    var t := p + Placeholder + s;
    if |p| == 0 {
      assert t == Placeholder + s;
      assert IsPrefix(Placeholder, t);
      assert t[3..] == s;
      FillBraceFree(s, v);
    } else {
      assert t[0] == p[0];
      FillStep(t, v);
      assert t[1..] == p[1..] + Placeholder + s;
      FillTemplate(p[1..], s, v);
      assert [p[0]] + (p[1..] + v + s) == p + v + s;
    }
  }

  /** A template entry: brace-free text around exactly one placeholder. */
  lemma TemplateEntry(p: string, s: string, v: string)
    requires '{' !in p && '{' !in s
    ensures Contains(p + Placeholder + s, Placeholder)
    ensures FillPlaceholder(p + Placeholder + s, v) == p + v + s
  {
    assert (p + Placeholder + s)[|p|..] == Placeholder + s;
    ContainsAt(p + Placeholder + s, |p|);
    FillTemplate(p, s, v);
  }

  predicate IsTemplateKey(key: string)
  {
    |key| >= 9 && key[|key| - 9..] == "_template"
  }

  /** Every `*_template` entry of the default table contains `{i}` once, and
      `get_xpath(key, i=v)` puts `v` in its place; no other entry contains `{i}`,
      so `get_xpath` returns those entries unchanged whatever the arguments. */
  lemma XPathTemplates(key: string, kwargs: map<string, string>)
    requires key in XPaths
    ensures Contains(XPaths[key], Placeholder) <==> IsTemplateKey(key)
    ensures !IsTemplateKey(key) ==> GetXpath(DefaultConfig, key, kwargs) == Ok(Some(XPaths[key]))
    ensures IsTemplateKey(key) && "i" in kwargs ==>
      exists p, s :: XPaths[key] == p + Placeholder + s && '{' !in p && '{' !in s &&
        GetXpath(DefaultConfig, key, kwargs) == Ok(Some(p + kwargs["i"] + s))
  {
    var t := XPaths[key];
    var v := if "i" in kwargs then kwargs["i"] else "";
    if IsTemplateKey(key) {
      var p, s := TemplateParts(key);
      TemplateEntry(p, s, v);
      if "i" in kwargs {
        assert t == p + Placeholder + s && GetXpath(DefaultConfig, key, kwargs) == Ok(Some(p + kwargs["i"] + s));
      }
    } else {
      PlainEntry(key);
      NoBraceNoPlaceholder(t);
    }
  }

  /** The brace-free parts around the placeholder of a template entry. */
  lemma TemplateParts(key: string) returns (p: string, s: string)
    requires key in XPaths && IsTemplateKey(key)
    ensures XPaths[key] == p + Placeholder + s && '{' !in p && '{' !in s
  {
    PrefixesBraceFree();
    CreditSuffixesBraceFree();
    CommentSuffixesBraceFree();
    ButtonSuffixesBraceFree();
    RatingSuffixesBraceFree();
    TemplateEntries();
    TemplateKey(key);
    if key == "cast_name_template" {
      p, s := CreditItem, "]/a/div[2]/div[1]/div[1]/text()";
    } else if key == "cast_role_template" {
      p, s := CreditItem, "]/a/div[2]/div[1]/div[2]/text()";
    } else if key == "comment_custom_id_template" {
      p, s := CommentItem, "]/article/a[1]";
    } else if key == "comment_text_template" {
      p, s := CommentItem, "]/article/a[2]/p";
    } else if key == "comment_rating_template" {
      p, s := CommentItem, "]/article/a[1]/header/div[2]/p";
    } else if key == "comment_likes_template" {
      p, s := CommentItem, "]/article/ul/li[1]/button/span";
    } else if key == "comment_spoiler_button_template" {
      p, s := CommentItem, "]/article/a[2]/p/button";
    } else if key == "user_movie_id_template" {
      p, s := RatingItem, "]/a/@href";
    } else if key == "user_movie_name_template" {
      p, s := RatingItem, "]/a/div[2]/div[1]/text()";
    } else if key == "user_movie_rating_template" {
      p, s := RatingItem, "]/a/div[2]/div[2]/text()";
    }
  }

  lemma CreditSuffixesBraceFree()
    ensures '{' !in "]/a/div[2]/div[1]/div[1]/text()"
    ensures '{' !in "]/a/div[2]/div[1]/div[2]/text()"
  {
  }

  lemma CommentSuffixesBraceFree()
    ensures '{' !in "]/article/a[1]"
    ensures '{' !in "]/article/a[2]/p"
    ensures '{' !in "]/article/a[1]/header/div[2]/p"
  {
  }

  lemma ButtonSuffixesBraceFree()
    ensures '{' !in "]/article/ul/li[1]/button/span"
    ensures '{' !in "]/article/a[2]/p/button"
  {
  }

  lemma RatingSuffixesBraceFree()
    ensures '{' !in "]/a/@href"
    ensures '{' !in "]/a/div[2]/div[1]/text()"
    ensures '{' !in "]/a/div[2]/div[2]/text()"
  {
  }

  lemma PrefixesBraceFree()
    ensures '{' !in InfoHeader && '{' !in InfoBody && '{' !in CreditItem
    ensures '{' !in CommentItem && '{' !in RatingItem
  {
    RootBraceFree();
    InfoBraceFree();
    ItemsBraceFree();
  }

  lemma RootBraceFree()
    ensures '{' !in RootSection
  {
    assert RootSection == "//*[@id=\"root\"]/div[1]/section";
  }

  lemma InfoBraceFree()
    requires '{' !in RootSection
    ensures '{' !in InfoHeader && '{' !in InfoBody
  {
    assert '{' !in "/div/div[2]/div/div/div[1]";
    assert '{' !in "/div[2]/div/";
    assert '{' !in "/div/div[2]/div/div/div[2]";
    assert '{' !in "/section[1]/div[2]/section[";
  }

  lemma ItemsBraceFree()
    requires '{' !in RootSection
    ensures '{' !in CreditItem && '{' !in CommentItem && '{' !in RatingItem
  {
    assert '{' !in "//*[@id=\"content_credits\"]";
    assert '{' !in "/section/div[1]/ul/li[";
    assert '{' !in "/div[2]/ul/li[";
    assert '{' !in "/section/div[1]/section/div[1]";
    assert '{' !in "/div/ul/li[";
  }

  lemma TemplateEntries()
    ensures XPaths["cast_name_template"] == CreditItem + Placeholder + "]/a/div[2]/div[1]/div[1]/text()"
    ensures XPaths["cast_role_template"] == CreditItem + Placeholder + "]/a/div[2]/div[1]/div[2]/text()"
    ensures XPaths["comment_custom_id_template"] == CommentItem + Placeholder + "]/article/a[1]"
    ensures XPaths["comment_text_template"] == CommentItem + Placeholder + "]/article/a[2]/p"
    ensures XPaths["comment_rating_template"] == CommentItem + Placeholder + "]/article/a[1]/header/div[2]/p"
    ensures XPaths["comment_likes_template"] == CommentItem + Placeholder + "]/article/ul/li[1]/button/span"
    ensures XPaths["comment_spoiler_button_template"] == CommentItem + Placeholder + "]/article/a[2]/p/button"
    ensures XPaths["user_movie_id_template"] == RatingItem + Placeholder + "]/a/@href"
    ensures XPaths["user_movie_name_template"] == RatingItem + Placeholder + "]/a/div[2]/div[1]/text()"
    ensures XPaths["user_movie_rating_template"] == RatingItem + Placeholder + "]/a/div[2]/div[2]/text()"
  {
  }

  lemma PlainEntries()
    ensures XPaths["movie_title"] == InfoHeader + "h1/text()"
    ensures XPaths["movie_basic_info"] == InfoHeader + "div[2]/text()"
    ensures XPaths["movie_additional_info"] == InfoHeader + "div[3]/text()"
    ensures XPaths["movie_synopsis"] == InfoBody + "3]/p/text()"
    ensures XPaths["movie_avg_rating"] == InfoBody + "1]/div[2]/div/div[1]/text()"
    ensures XPaths["movie_n_rating"] == InfoBody + "1]/div[2]/div/div[2]/text()"
    ensures XPaths["movie_n_comments"] == "/html/body/div[1]/div[1]/section" + "/div/div[2]/section/section[2]" + "/header/span/text()"
  {
  }

  /** The keys that end in `_template`. */
  lemma TemplateKey(key: string)
    requires key in XPaths && IsTemplateKey(key)
    ensures key in {"cast_name_template", "cast_role_template", "comment_custom_id_template", "comment_text_template", "comment_rating_template", "comment_likes_template", "comment_spoiler_button_template", "user_movie_id_template", "user_movie_name_template", "user_movie_rating_template"}
  {
  }

  /** The keys that do not end in `_template` are the seven page-level entries. */
  lemma PlainKey(key: string)
    requires key in XPaths && !IsTemplateKey(key)
    ensures key in {"movie_title", "movie_basic_info", "movie_additional_info", "movie_synopsis", "movie_avg_rating", "movie_n_rating", "movie_n_comments"}
  {
  }

  /** The non-template entries hold no `{`. */
  lemma PlainEntry(key: string)
    requires key in XPaths && !IsTemplateKey(key)
    ensures '{' !in XPaths[key]
  {
    PrefixesBraceFree();
    PlainEntries();
    PlainKey(key);
    PlainSuffixesBraceFree();
  }

  lemma PlainSuffixesBraceFree()
    ensures '{' !in "h1/text()" && '{' !in "div[2]/text()" && '{' !in "div[3]/text()"
    ensures '{' !in "3]/p/text()" && '{' !in "1]/div[2]/div/div[1]/text()"
    ensures '{' !in "1]/div[2]/div/div[2]/text()"
    ensures '{' !in "/html/body/div[1]/div[1]/section" + "/div/div[2]/section/section[2]" + "/header/span/text()"
  {
    HeaderSuffixesBraceFree();
    BodySuffixesBraceFree();
    CommentCountBraceFree();
  }

  lemma HeaderSuffixesBraceFree()
    ensures '{' !in "h1/text()" && '{' !in "div[2]/text()" && '{' !in "div[3]/text()"
  {
  }

  lemma BodySuffixesBraceFree()
    ensures '{' !in "3]/p/text()" && '{' !in "1]/div[2]/div/div[1]/text()"
    ensures '{' !in "1]/div[2]/div/div[2]/text()"
  {
  }

  lemma CommentCountBraceFree()
    ensures '{' !in "/html/body/div[1]/div[1]/section" + "/div/div[2]/section/section[2]" + "/header/span/text()"
  {
    assert '{' !in "/html/body/div[1]/div[1]/section";
    assert '{' !in "/div/div[2]/section/section[2]";
    assert '{' !in "/header/span/text()";
  }
}
