/**
 * The "AEGIS" control terminal (components/SystemTerminal.tsx): a rolling log
 * window fed by an interval timer, and a random system-load figure.
 * The timer, the clock (`toLocaleTimeString`) and `Math.random()` are inputs.
 */
module SystemTerminal {
  import opened Random

  /** The log lines the terminal opens with. */
  const BootLogs: seq<string> := [
    "[SYSTEM] Initializing AEGIS Protocol...",
    "[AUTH] Identity Verified: Toiby_Admin",
    "[CORE] Neural Engine Active"
  ]

  /** `potentialLogs`: the nine templates a tick picks from. */
  const Templates: seq<string> := [
    "[INFO] Inbound Lead detected from WebHook_A12",
    "[AI] Analyzing Business Logic for Optimization...",
    "[AUTO] Connecting Gmail API to CRM Monday.com",
    "[CORE] Profitability calculation: +24% projected",
    "[INFO] Scaling AI Agent resources to 4vCPU",
    "[SUCCESS] Automation flow #45 completed in 0.4s",
    "[DATA] Scraping competitors for market edge...",
    "[AUTH] Encrypting client database with SHA-512",
    "[SYSTEM] All systems nominal. 24/7 Mode engaged."
  ]

  /** How many earlier lines a tick keeps (`slice(-20)`). */
  const Kept: nat := 20

  datatype Terminal = Terminal(logs: seq<string>, load: int)

  /** The state on mount: the three boot lines, load 0. */
  function Initial(): (t: Terminal)
    ensures |t.logs| == 3 && t.load == 0
  {
    Terminal(BootLogs, 0)
  }

  function Min(a: int, b: int): int {
    if a < b then a else b
  }

  /** `s.slice(-n)` for `n >= 1`: the last `n` elements, or all of `s` when it is shorter. (`slice(-0)` keeps all of `s`.) */
  function Last(s: seq<string>, n: nat): (r: seq<string>)
    requires n >= 1
    ensures |r| == Min(|s|, n)
    ensures r == s[|s| - |r|..]
  {
    if |s| <= n then s else s[|s| - n..]
  }

  /** `Math.floor(r * potentialLogs.length)`: a valid template index. */
  function TemplateIndex(r: real): (i: int)
    requires IsDraw(r)
    ensures 0 <= i < |Templates|
    ensures i as real <= r * 9.0 < i as real + 1.0
  {
    (r * 9.0).Floor
  }

  /** `Math.floor(r * 40) + 60`: an integer load in [60, 99]. */
  function Load(r: real): (l: int)
    requires IsDraw(r)
    ensures 60 <= l <= 99
    ensures (l - 60) as real <= r * 40.0 < (l - 59) as real
  {
    (r * 40.0).Floor + 60
  }

  /** A new log line: the time stamp in brackets, then the template. */
  function Entry(stamp: string, template: string): (e: string)
    ensures |e| == |stamp| + |template| + 3
    ensures e[0] == '[' && e[1..|stamp| + 1] == stamp && e[|stamp| + 1..|stamp| + 3] == "] "
    ensures e[|stamp| + 3..] == template
  {
    "[" + stamp + "] " + template
  }

  /** Append one line to the window, keeping at most the 20 most recent earlier lines. */
  function Push(logs: seq<string>, line: string): (r: seq<string>)
    ensures |r| == Min(|logs|, Kept) + 1 <= Kept + 1
    ensures r[|r| - 1] == line
    ensures r[..|r| - 1] == logs[|logs| - Min(|logs|, Kept)..]
  {
    Last(logs, Kept) + [line]
  }

  /** One interval tick at clock text `stamp` with draws `logDraw` (template) and `loadDraw` (load). */
  function Tick(t: Terminal, stamp: string, logDraw: real, loadDraw: real): (r: Terminal)
    requires IsDraw(logDraw) && IsDraw(loadDraw)
    ensures |r.logs| == Min(|t.logs|, Kept) + 1
    ensures r.logs[..|r.logs| - 1] == t.logs[|t.logs| - Min(|t.logs|, Kept)..]
    ensures exists i | 0 <= i < |Templates| :: r.logs[|r.logs| - 1] == Entry(stamp, Templates[i])
    ensures r.logs[|r.logs| - 1] == Entry(stamp, Templates[TemplateIndex(logDraw)])
    ensures 60 <= r.load <= 99
    ensures r.load == Load(loadDraw)
  {
    var i := TemplateIndex(logDraw);
    Terminal(Push(t.logs, Entry(stamp, Templates[i])), Load(loadDraw))
  }

  /** The log after pushing `lines` one at a time. */
  function PushAll(logs: seq<string>, lines: seq<string>): seq<string>
    decreases |lines|
  {
    if lines == [] then logs
    else PushAll(Push(logs, lines[0]), lines[1..])
  }

  /** The window is always the last (at most) 21 lines of the whole history. */
  lemma {:induction false} WindowOfHistory(logs: seq<string>, lines: seq<string>)
    requires |logs| <= Kept + 1
    ensures PushAll(logs, lines) == Last(logs + lines, Kept + 1)
    decreases |lines|
  {
    if lines == [] {
      assert logs + lines == logs;
    } else {
      var next := Push(logs, lines[0]);
      WindowOfHistory(next, lines[1..]);
      assert logs + lines == logs + [lines[0]] + lines[1..];
      PushWindow(logs, lines[0], lines[1..]);
    }
  }

  /** Pushing one line onto a window of at most 21 lines does not change which lines the history keeps. */
  lemma PushWindow(logs: seq<string>, line: string, rest: seq<string>)
    requires |logs| <= Kept + 1
    ensures Last(Push(logs, line) + rest, Kept + 1) == Last(logs + [line] + rest, Kept + 1)
  {
    var h := logs + [line] + rest;
    var d := |logs| - Min(|logs|, Kept);
    var kept := Last(logs, Kept);
    assert kept == logs[d..];
    assert Push(logs, line) == logs[d..] + [line];
    calc {
      Push(logs, line) + rest;
      logs[d..] + [line] + rest;
      { assert logs + [line] + rest == logs[..d] + (logs[d..] + [line] + rest); }
      h[d..];
    }
    LastOfSuffix(h, d, Kept + 1);
  }

  /** Dropping a prefix does not change the last `n` elements, as long as at least `n` (or all) remain. */
  lemma LastOfSuffix(h: seq<string>, d: nat, n: nat)
    requires n >= 1
    requires d <= |h| && |h| - d >= Min(|h|, n)
    ensures Last(h[d..], n) == Last(h, n)
  {
    var t := h[d..];
    if |h| <= n {
      assert d == 0 && t == h;
    } else {
      assert |t| >= n;
      assert t[|t| - n..] == h[|h| - n..];
    }
  }

  /** From the boot state, the log holds `min(3 + k, 21)` lines after `k` ticks. */
  lemma LogLengthAfterTicks(lines: seq<string>)
    ensures |PushAll(BootLogs, lines)| == Min(3 + |lines|, Kept + 1)
  {
    WindowOfHistory(BootLogs, lines);
  }
}
