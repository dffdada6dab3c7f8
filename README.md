# lc_vid_generator — a Dafny model of its decision logic

`create_video.py` fetches the LeetCode algorithm problem list, keeps the free
problems sorted by difficulty and then problem number, and for the first
`NUM_QUESTIONS` of them asks a language model for an explanation and tips. It
composes a four-block narration script, synthesizes speech, renders one text
clip per block with a fixed duration, attaches the audio (cut to the video's
length when longer) and writes `created_vids/problem_<n>_<slug>.mp4`. A failure
in one problem is caught and the loop moves on to the next.

This project models the pure decisions between those outside calls and proves
what they promise:

- `problems.dfy` (module `Problems`): the filter loop of `get_problems_list` as
  a method. It also holds the stable sort on `(difficulty, frontend_id)` and the
  slice `problems[:NUM_QUESTIONS]`. The sort is an insertion sort. It is proved
  sorted, a permutation and stable, and also unique: any arrangement that is
  sorted and keeps equal keys in input order is the one it returns. So it is
  exactly what Python's `sorted` returns.
- `difficulty.dfy` (module `Difficulty`): the `{1: "Easy", 2: "Medium", 3: "Hard"}.get(d, "Unknown")` label.
- `decimal.dfy` (module `Decimal`): `str(int)` as the f-strings use it, with its inverse.
- `script.dfy` (module `Script`): the question, example, tips and solution
  blocks, the narration joined by blank lines, and the segment plan with
  durations `[10, 7, 7, 20]`.
- `sequencer.dfy` (module `Sequencer`): the concatenation timeline and the
  audio rule: the audio lasts `min(A, V)` and the video lasts `V`.
- `batch.dfy` (module `Batch`): `create_video_for_problem` as an outcome. It
  also holds the output file name and `main`'s catch-and-continue loop as a
  method that returns one outcome per selected problem.

Outside services are inputs. The HTTP answer is a `Response` (status and parsed
records). The language-model texts, the speech duration and whether rendering
and writing succeed are a `Replies` value per batch position, with `None` or
`false` standing for a raised exception.

## Model

| member | source | states |
|---|---|---|
| `Problems.GetProblemsList` | create_video.py:28-54 | a non-200 status is the error result, and only then; otherwise the list is the stable key-sort of the free records' tuples, built by the append loop |
| `Problems.FreeIndicesExact` | create_video.py:42-49 | the kept positions are exactly the records that are not paid-only, each once, in increasing order |
| `Problems.FreeProblemsFollowIndices` | create_video.py:42-49 | the j-th kept tuple is (slug, difficulty, frontend_id, title) of the j-th free record |
| `Problems.FreeProblemsMembers` | create_video.py:43-49 | a tuple is kept if and only if some record that is not paid-only projects to it |
| `Problems.SortByKey` | create_video.py:52 | the result is non-decreasing in (difficulty, frontend_id), a permutation of the input, and keeps the input order among equal keys |
| `Problems.SortedStableUnique` | create_video.py:52 | two arrangements that are both key-sorted and agree on every key's subsequence are equal |
| `Problems.SortByKeyIsTheStableSort` | create_video.py:52 | any sorted arrangement that keeps equal keys in input order equals the modelled sort, so the model is Python's stable `sorted` |
| `Problems.Select` | create_video.py:195 | the selection is a prefix of the sorted list of length min(NUM_QUESTIONS, number of free problems) |
| `Problems.SelectionIsEasiest` | create_video.py:194-195 | the selected problems are free, in key order, and none has a larger key than a free problem that was left out |
| `Problems.ExampleSelection` | create_video.py:42-52 | a paid-only record between two free easy ones is skipped and the free ones come out in id order |
| `Difficulty.Label` | create_video.py:142 | "Easy", "Medium", "Hard" exactly for 1, 2, 3, and "Unknown" exactly for every other level |
| `Decimal.NatToDecimal` | create_video.py:184 | the rendered index is a non-empty digit string without leading zero |
| `Decimal.IntToDecimal` | create_video.py:148 | the rendered problem number is a well-formed numeral that starts with '-' exactly for negative numbers |
| `Decimal.ParseNatInverts` | create_video.py:184 | reading back a rendered natural number gives that number |
| `Decimal.ParseIntInverts` | create_video.py:148 | reading back a rendered problem number gives that number |
| `Decimal.IntToDecimalInjective` | create_video.py:148 | different problem numbers are rendered differently |
| `Script.PlanMatchesNarration` | create_video.py:148-172 | the plan has four segments, in block order, with durations [10, 7, 7, 20] summing to 44, and its texts joined by blank lines are exactly the narration |
| `Script.NarrationLayout` | create_video.py:148-156 | the narration is the question, the example placeholder, the verbatim tips, then "Solution:\n" and the explanation, separated by blank lines |
| `Script.NarrationDeterminesExplanation` | create_video.py:154-156 | different explanations give different narrations |
| `Script.NarrationDeterminesTips` | create_video.py:153-156 | different tips give different narrations |
| `Sequencer.ConcatenateLaysOut` | create_video.py:172 | each clip keeps its text and duration, clips follow each other in plan order without gap or overlap, and together they span the total duration |
| `Sequencer.ContiguousTiles` | create_video.py:172 | gap-free placements starting at 0 show every instant before their end exactly once |
| `Sequencer.ConcatenationTiles` | create_video.py:172-174 | every instant of the video is shown by exactly one segment |
| `Sequencer.AttachAudio` | create_video.py:174-181 | the video keeps its length; the audio lasts min(audio, video), and it is shortened exactly when it is longer than the video |
| `Sequencer.AttachAudioIdempotent` | create_video.py:178-181 | attaching already attached audio again changes nothing |
| `Sequencer.LongAudioIsCut` | create_video.py:165-181 | 60 seconds of narration over the fixed plan leave a 44-second video with 44 seconds of audio |
| `Batch.OutputFileNameRoundTrip` | create_video.py:184 | the index and the slug can be read back from the output file name |
| `Batch.OutputFileNamesDistinct` | create_video.py:184 | different batch positions give different file names, whatever the slugs |
| `Batch.MadeExactlyWhenAllStepsSucceed` | create_video.py:145-186 | a video is made if and only if every outside step succeeds; a failure names the problem, and the explanation step is blamed exactly when it raised |
| `Batch.ArtifactOfProblem` | create_video.py:138-186 | a made video is named after its index and slug, narrates what its segments show, lasts 44 seconds, carries min(speech, 44) seconds of audio, and its narration ends with the explanation |
| `Batch.BatchResults` | create_video.py:197-202 | there is one outcome per selected problem, and the i-th is the attempt at the i-th problem with index i |
| `Batch.RunBatch` | create_video.py:197-205 | the loop returns exactly the batch's outcomes, so it never raises for a per-problem failure |
| `Batch.FailureIsolation` | create_video.py:199-202 | changing what happens to one problem changes no other problem's outcome |
| `Batch.MadeFileName` | create_video.py:184 | a made video's file is `created_vids/problem_<index+1>_<slug>.mp4` |
| `Batch.BatchFileName` | create_video.py:184-200 | the video made at batch position i is written to the file named after i and that problem's slug |
| `Batch.BatchFilesDistinct` | create_video.py:184-200 | no two videos of one batch are written to the same file |
| `Batch.Run` | create_video.py:193-205 | only a failed fetch fails the run; otherwise the outcomes are those of the selected problems |
| `Batch.FirstFailureDoesNotStopSecond` | create_video.py:197-205 | when the first of two problems fails at the explanation step, the second is still made, as `problem_2_<slug>.mp4` |

## Left out

- The HTTP request and the JSON navigation (`data["stat_status_pairs"]`, `p["stat"][...]`): the input is an already parsed list of records plus the status code.
- `get_openai_solution`, `get_openai_tips`: language-model calls; their text (or their failure) is an input. The prompts they build, which also use the difficulty label, are not modelled.
- `text_to_speech`, `create_text_clip_pillow`, `concatenate_videoclips`, `set_audio`, `write_videofile`: foreign libraries. Only their durations and their success or failure are modelled, and text rendering, fonts, centring and the frame rate are not.
- Filesystem work: `os.makedirs`, the temporary audio path and its removal. The output path uses '/' as the separator.
- `time.sleep(5)` between problems and all console printing.
- Audio durations are non-negative reals standing for moviepy's measured floating-point durations. Rounding is not modelled.
- Exception messages: a failure records the problem's slug and the step that raised, not the text of the exception.
- `Sequencer.Concatenate`: its own contract states only the length; its layout is stated by `Sequencer.ConcatenateLaysOut`.
- The difficulty level may be any integer, as in the code. A description that limits it to 1, 2 or 3 does not match the code's "Unknown" fallback, which the model keeps.
