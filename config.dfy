/** The configuration file under the user's home directory: loading with
    `~` expansion, first-time initialisation, and the feed and topic edits.
    YAML (de)serialisation is not modelled: the file holds a configuration
    record, `None` when the file does not exist. */
module ConfigFile {
  import opened Types

  /** `path.join(home, '.ai-news-agent')`. */
  function ConfigDir(home: string): string
  {
    home + "/.ai-news-agent"
  }

  /** `path.join(CONFIG_DIR, 'config.yaml')`. */
  function ConfigPath(home: string): string
  {
    ConfigDir(home) + "/config.yaml"
  }

  /** `path.join(CONFIG_DIR, 'reports')`. */
  function ReportsDir(home: string): string
  {
    ConfigDir(home) + "/reports"
  }

  /** `DEFAULT_CONFIG.feeds`. */
  const DefaultFeeds: seq<Feed> :=
    [ Feed("Anthropic Engineering (GitHub)",
           "https://raw.githubusercontent.com/conoro/anthropic-engineering-rss-feed/main/anthropic_engineering_rss.xml"),
      Feed("Hacker News - AI/LLM", "https://hnrss.org/newest?q=AI+LLM+agent"),
      Feed("Hacker News - Claude", "https://hnrss.org/newest?q=claude+anthropic"),
      Feed("The Verge - AI", "https://www.theverge.com/rss/ai-artificial-intelligence/index.xml") ]

  /** `DEFAULT_CONFIG.topics`. */
  const DefaultTopics: seq<Topic> :=
    [ Topic("Claude Code 版本特性", "Claude Code CLI 工具的新版本发布、新功能、效率提升特性",
            ["claude code", "claude cli", "anthropic cli"], "high") ]

  /** `DEFAULT_CONFIG.claude`. */
  const DefaultClaude: ClaudeConfig := ClaudeConfig("claude-haiku-4-5-20251001", Some(50))

  /** `DEFAULT_CONFIG`. */
  function DefaultConfig(home: string): Config
  {
    Config(DefaultFeeds, DefaultTopics,
           OutputConfig(true, Some(MarkdownOutput(true, ReportsDir(home))), Some(HtmlOutput(true, ReportsDir(home), true))),
           DefaultClaude)
  }

  /** `p.replace(/^~/, home)`: a single leading tilde becomes the home
      directory; any other path is returned as it is. */
  function ExpandHome(p: string, home: string): (r: string)
    ensures |p| > 0 && p[0] == '~' ==> r == home + p[1..]
    ensures (|p| == 0 || p[0] != '~') ==> r == p
  {
    if |p| > 0 && p[0] == '~' then home + p[1..] else p
  }

  /** Only the first tilde is replaced, and expanding twice is expanding
      once as long as the home directory does not itself start with `~`. */
  lemma ExpandHomeOnce(p: string, home: string)
    ensures |home| > 0 && home[0] != '~' ==> ExpandHome(ExpandHome(p, home), home) == ExpandHome(p, home)
    ensures ExpandHome("~~" + p, home) == home + "~" + p
  {
    assert ("~~" + p)[1..] == "~" + p;
  }

  /** The output section with both report directories expanded. */
  function ExpandDirs(o: OutputConfig, home: string): (r: OutputConfig)
    ensures r.terminal == o.terminal
    ensures r.markdown.Some? <==> o.markdown.Some?
    ensures r.html.Some? <==> o.html.Some?
    ensures o.markdown.Some? ==> r.markdown.value == o.markdown.value.(dir := ExpandHome(o.markdown.value.dir, home))
    ensures o.html.Some? ==> r.html.value == o.html.value.(dir := ExpandHome(o.html.value.dir, home))
  {
    o.(markdown := match o.markdown case Some(m) => Some(m.(dir := ExpandHome(m.dir, home))) case None => None,
       html := match o.html case Some(h) => Some(h.(dir := ExpandHome(h.dir, home))) case None => None)
  }

  /** `loadConfig`: a missing file is an error; otherwise the stored record
      with its report directories `~`-expanded and nothing else changed. */
  function LoadConfig(file: Option<Config>, home: string): (r: Result<Config>)
    ensures file.None? <==> r.Err?
    ensures r.Ok? ==> r.value == file.value.(output := ExpandDirs(file.value.output, home))
  {
    match file
    case None => Err("配置文件不存在: " + ConfigPath(home) + "\n请先运行 ai-news init 创建配置")
    case Some(c) => Ok(c.(output := ExpandDirs(c.output, home)))
  }

  /** Whether some configured feed has this URL. */
  predicate HasFeedUrl(feeds: seq<Feed>, url: string)
  {
    exists i :: 0 <= i < |feeds| && feeds[i].url == url
  }

  /** Whether some configured topic has this name. */
  predicate HasTopicName(topics: seq<Topic>, name: string)
  {
    exists i :: 0 <= i < |topics| && topics[i].name == name
  }

  /** The edit `addFeed` applies to a loaded record: refused when the URL is
      already configured, otherwise the feed appended at the end. */
  function WithFeed(c: Config, name: string, url: string): (r: Result<Config>)
    ensures r.Err? <==> HasFeedUrl(c.feeds, url)
    ensures r.Ok? ==> r.value == c.(feeds := c.feeds + [Feed(name, url)])
  {
    if HasFeedUrl(c.feeds, url) then Err("RSS 源已存在: " + url)
    else Ok(c.(feeds := c.feeds + [Feed(name, url)]))
  }

  /** The edit `addTopic` applies: refused when the name is already used,
      otherwise the topic appended at the end. */
  function WithTopic(c: Config, name: string, description: string, keywords: seq<string>, priority: string): (r: Result<Config>)
    ensures r.Err? <==> HasTopicName(c.topics, name)
    ensures r.Ok? ==> r.value == c.(topics := c.topics + [Topic(name, description, keywords, priority)])
  {
    if HasTopicName(c.topics, name) then Err("关注点已存在: " + name)
    else Ok(c.(topics := c.topics + [Topic(name, description, keywords, priority)]))
  }

  /** Feed URLs are pairwise distinct. */
  ghost predicate UniqueUrls(feeds: seq<Feed>)
  {
    forall i, j :: 0 <= i < j < |feeds| ==> feeds[i].url != feeds[j].url
  }

  /** Topic names are pairwise distinct. */
  ghost predicate UniqueNames(topics: seq<Topic>)
  {
    forall i, j :: 0 <= i < j < |topics| ==> topics[i].name != topics[j].name
  }

  /** Adding a feed keeps URLs unique, and adding the same URL again is
      refused, whatever the name; a second feed with a new URL is accepted
      even under a name already in use. */
  lemma WithFeedKeepsUrlsUnique(c: Config, name: string, url: string, name2: string, url2: string)
    requires UniqueUrls(c.feeds)
    ensures WithFeed(c, name, url).Ok? ==> UniqueUrls(WithFeed(c, name, url).value.feeds)
    ensures WithFeed(c, name, url).Ok? ==> WithFeed(WithFeed(c, name, url).value, name2, url).Err?
    ensures WithFeed(c, name, url).Ok? && url2 != url && !HasFeedUrl(c.feeds, url2)
            ==> WithFeed(WithFeed(c, name, url).value, name, url2).Ok?
  {
    if WithFeed(c, name, url).Ok? {
      var f := WithFeed(c, name, url).value.feeds;
      assert f == c.feeds + [Feed(name, url)];
      assert f[|f| - 1].url == url;
      if url2 != url && !HasFeedUrl(c.feeds, url2) {
        forall i | 0 <= i < |f| ensures f[i].url != url2 {
          if i < |c.feeds| {
            assert f[i] == c.feeds[i];
          }
        }
      }
    }
  }

  /** Adding a topic keeps names unique, and adding the same name again is
      refused. */
  lemma WithTopicKeepsNamesUnique(c: Config, name: string, d: string, k: seq<string>, p: string,
                                  d2: string, k2: seq<string>, p2: string)
    requires UniqueNames(c.topics)
    ensures WithTopic(c, name, d, k, p).Ok? ==> UniqueNames(WithTopic(c, name, d, k, p).value.topics)
    ensures WithTopic(c, name, d, k, p).Ok? ==> WithTopic(WithTopic(c, name, d, k, p).value, name, d2, k2, p2).Err?
  {
    if WithTopic(c, name, d, k, p).Ok? {
      var t := WithTopic(c, name, d, k, p).value.topics;
      assert t[|t| - 1].name == name;
    }
  }

  /** `initConfig`'s report directory: the configured markdown directory,
      `~`-expanded, or the default reports directory when none (or '') is
      configured. */
  function ReportDir(c: Config, home: string): (r: string)
    ensures r != ""
    ensures r == ReportsDir(home) || (c.output.markdown.Some? && r == ExpandHome(c.output.markdown.value.dir, home))
  {
    if c.output.markdown.Some? && ExpandHome(c.output.markdown.value.dir, home) != ""
    then ExpandHome(c.output.markdown.value.dir, home)
    else ReportsDir(home)
  }

  /** The default record's report directory is the default reports
      directory. */
  lemma DefaultReportDir(home: string)
    requires |home| == 0 || home[0] != '~'
    ensures ReportDir(DefaultConfig(home), home) == ReportsDir(home)
  {
    var d := ReportsDir(home);
    assert |d| > 0 && d[0] != '~' ==> ExpandHome(d, home) == d;
    if |home| > 0 {
      assert d[0] == home[0];
    } else {
      assert d[0] == '/';
    }
  }

  /** `customConfig || DEFAULT_CONFIG`. */
  function Initial(custom: Option<Config>, home: string): Config
  {
    custom.GetOr(DefaultConfig(home))
  }

  /** The configuration file and the directories that exist. */
  class Store {
    const home: string
    var file: Option<Config>
    var dirs: set<string>

    constructor (home: string, file: Option<Config>, dirs: set<string>)
      ensures this.home == home
      ensures this.file == file && this.dirs == dirs
    {
      this.home := home;
      this.file := file;
      this.dirs := dirs;
    }

    /** `saveConfig`: creates the configuration directory if needed and
        writes the record. */
    method Save(c: Config)
      modifies this
      ensures file == Some(c)
      ensures dirs == old(dirs) + {ConfigDir(home)}
    {
      dirs := dirs + {ConfigDir(home)};
      file := Some(c);
    }

    /** `initConfig(customConfig)`: writes the given record, or the default
        one without it, creates the report directory and returns the path of
        the file. */
    method InitConfig(custom: Option<Config>) returns (path: string)
      modifies this
      ensures file == Some(Initial(custom, home))
      ensures dirs == old(dirs) + {ConfigDir(home), ReportDir(Initial(custom, home), home)}
      ensures path == ConfigPath(home)
    {
      var config := Initial(custom, home);
      Install(config);
      path := ConfigPath(home);
    }

    /** `initConfig` once the record is chosen: save it and create its
        report directory if it is missing. */
    method Install(config: Config)
      modifies this
      ensures file == Some(config)
      ensures dirs == old(dirs) + {ConfigDir(home), ReportDir(config, home)}
    {
      Save(config);
      var reportDir := ReportDir(config, home);
      if reportDir !in dirs {
        dirs := dirs + {reportDir};
      }
    }

    /** `addFeed(name, url)`: on a missing file or a URL already present the
        file is left as it was and the error is returned; otherwise the
        loaded record (directories expanded) is saved with the feed appended. */
    method AddFeed(name: string, url: string) returns (r: Result<Config>)
      modifies this
      ensures old(file).None? ==> r.Err? && file == old(file) && dirs == old(dirs)
      ensures old(file).Some? ==> r == WithFeed(LoadConfig(old(file), home).value, name, url)
      ensures r.Err? ==> file == old(file) && dirs == old(dirs)
      ensures r.Ok? ==> file == Some(r.value) && dirs == old(dirs) + {ConfigDir(home)}
    {
      var loaded := LoadConfig(file, home);
      if loaded.Err? {
        return Err(loaded.message);
      }
      r := WithFeed(loaded.value, name, url);
      if r.Ok? {
        Save(r.value);
      }
    }

    /** `addTopic(name, description, keywords, priority = 'medium')`. */
    method AddTopic(name: string, description: string, keywords: seq<string>, priority: string := "medium")
      returns (r: Result<Config>)
      modifies this
      ensures old(file).None? ==> r.Err? && file == old(file) && dirs == old(dirs)
      ensures old(file).Some? ==> r == WithTopic(LoadConfig(old(file), home).value, name, description, keywords, priority)
      ensures r.Err? ==> file == old(file) && dirs == old(dirs)
      ensures r.Ok? ==> file == Some(r.value) && dirs == old(dirs) + {ConfigDir(home)}
    {
      var loaded := LoadConfig(file, home);
      if loaded.Err? {
        return Err(loaded.message);
      }
      r := WithTopic(loaded.value, name, description, keywords, priority);
      if r.Ok? {
        Save(r.value);
      }
    }
  }
}
