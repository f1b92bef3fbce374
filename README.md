# Occupancy monitor: model of the per-frame occupancy update

This project models the core of a camera-based occupancy monitor. The monitor
reads camera frames and finds the face encodings in each frame. It appends
those encodings to a rolling window of the last 100. It estimates the number of
distinct people as the number of KMeans clusters used over the whole window. It
writes that estimate to a one-row database table, and it e-mails an alert
whenever the written count is at or above the limit of 500.

The model has four modules, one per piece of `facial_recognition.py`:

- `Window` (window.dfy): the `deque(maxlen=100)` of encodings. `EmbeddingWindow`
  is a class whose `items` sequence is updated in place by `Append` and
  `AppendAll`.
  `PushAll` is the specification: pushing `xs` into a window `w` one at a time
  leaves exactly the last min(|w| + |xs|, 100) entries of `w + xs`, in order.
  Encodings are an opaque type parameter.
- `Clustering` (clustering.dfy): `cluster_faces`. KMeans is the subset type
  `KMeans<E>`. It stands for any labelling function that, asked for `k`
  clusters of `n` points (1 <= k <= n), gives each point a label in [0, k).
  The estimate is the number of distinct labels used.
- `Store` (store.dfy): `update_occupancy` and `get_occupancy`. The occupancy
  row is one integer field. Each alert e-mail adds one to a counter. A ghost
  history of committed counts ties that counter to "one alert per committed
  count at or above 500".
- `Pipeline` (pipeline.dfy): the `generate_frames` loop. `Advance` and
  `AdvanceAll` are pure specifications over a `LoopState`. The class
  `Monitor` holds the module-level state: the window, the `current_occupancy`
  global and the store. Its methods `ProcessFrame`, `Step` and
  `GenerateFrames` are proved to change that state exactly as `Advance` and
  `AdvanceAll` say.

Camera reads are an input sequence of `Frame` values. Each is either
`ReadFailed` or `Captured(encodings)`, where the encodings stand for what the
face-recognition library returns for that frame. The loop stops at the first
failed read. A read that never happens (the consumer stops pulling frames) is a
shorter input sequence.

One consequence is proved outright (`Pipeline.LoopNeverAlerts`). The estimate
never exceeds `min(n, 5)`, and the limit is 500. So the frame loop can never
commit a count that raises the alert, and the page's `occupancy >= max_occupancy`
check can never show the alert either. This holds for the constants as written
(`MAX_OCCUPANCY = 500` at facial_recognition.py:18, `n_clusters=min(len, 5)` at
facial_recognition.py:78).

Points in the code that the model follows as written:

- The alert fires again on every update at or above the limit. Nothing
  rate-limits it (facial_recognition.py:63-64).
- `init_db` inserts a new row on every start. Reads and updates always use row
  1, so the model's store is row 1, starting at 0 on a fresh database
  (facial_recognition.py:31-32, 59, 71).

## Model

| member | source | states |
|---|---|---|
| `Window.PushAll` | facial_recognition.py:95-96 | Appending encodings one at a time to the bounded window leaves exactly the last min(old size + appended, 100) entries of old window ++ appended, in append order. The contract is proved from the step-by-step definition. |
| `Window.PushAllAppend` | facial_recognition.py:95-96 | Appending `a` and then `b` leaves the same window as appending `a + b`. |
| `Window.EmbeddingWindow.constructor` | facial_recognition.py:20 | The window starts empty and within capacity. |
| `Window.EmbeddingWindow.Append` | facial_recognition.py:20 | `deque.append` with `maxlen=100`. Below capacity it appends. At capacity it drops the oldest entry and appends. The size never exceeds 100. |
| `Window.EmbeddingWindow.AppendAll` | facial_recognition.py:95-96 | The `for` loop appending a frame's encodings one at a time. The window stays within capacity, and its new contents are exactly `PushAll` of the old contents and the encodings. |
| `Clustering.LabelsBelowBound` | facial_recognition.py:78-80 | A set of labels all below `k` has at most `k` members. |
| `Clustering.UsedLabelsBound` | facial_recognition.py:80 | A labelling uses at most as many distinct labels as it has points. |
| `Clustering.DistinctLabelCount` | facial_recognition.py:80 | `len(set(labels))` with labels in [0, k) is at most `k`, at most the number of points, and zero exactly when there are no points. |
| `Clustering.ClusterFaces` | facial_recognition.py:76-81 | The estimate never exceeds min(n, 5), and it is zero exactly when there are no encodings. So 1 encoding gives 1, and n >= 2 encodings give between 1 and min(n, 5), for every KMeans outcome. |
| `Store.AlertsFor` | facial_recognition.py:63-64 | A series of committed counts raises at most one alert per count. It raises one for every count when all are at or above 500, so there is no cooldown. It raises none when all are below 500. |
| `Store.AlertsForAppend` | facial_recognition.py:63-64 | Alerts add up over consecutive series of updates. |
| `Store.OccupancyStore.constructor` | facial_recognition.py:31-32 | A fresh database holds count 0, with no count committed and no alert sent. |
| `Store.OccupancyStore.UpdateOccupancy` | facial_recognition.py:56-64 | The stored count becomes `c`, whatever it was before. Exactly one alert is added when `c >= 500` and none otherwise, so 499 adds none and 500 adds one. The alert counter stays equal to the number of committed counts at or above 500. |
| `Store.OccupancyStore.GetOccupancy` | facial_recognition.py:67-73 | Returns the last committed count, or 0 when nothing has been committed. Changes nothing. |
| `Pipeline.Advance` | facial_recognition.py:86-99 | After a loop iteration the window is within capacity. A successful read keeps a running loop running. If the loop still runs, the read succeeded, and the occupancy global and the stored count both equal the estimate for the whole new window. Otherwise the state is the old one with the loop stopped. |
| `Pipeline.AdvanceAll` | facial_recognition.py:84-99 | The window stays within capacity over any number of reads. |
| `Pipeline.AdvanceAllRunning` | facial_recognition.py:86-89 | After any run, the loop is still running exactly when it was running before and every read in the run succeeded. |
| `Pipeline.AdvanceAllStopped` | facial_recognition.py:88-89 | Once the loop has stopped, later reads change nothing. |
| `Pipeline.InitialConsistent` | facial_recognition.py:19-20 | At process start on a fresh database, the occupancy global and the stored count, both 0, equal the estimate for the empty window. |
| `Pipeline.AdvanceAllAppend` | facial_recognition.py:86 | Running over `a + b` equals running over `a` and then over `b`. |
| `Pipeline.FailedReadStops` | facial_recognition.py:87-89 | A failed read stops the loop. There is no push, no update and no alert, for it or for any later read. |
| `Pipeline.AdvanceAllWindow` | facial_recognition.py:95-96 | After any run, the window is the old window with every encoding read before the first failed read pushed in order. |
| `Pipeline.WindowFromStart` | facial_recognition.py:20 | From process start, after N encodings are read the window holds exactly the last min(N, 100) of them, in read order. |
| `Pipeline.AdvanceAllConsistent` | facial_recognition.py:98-99 | Starting from a fresh database, the occupancy global and the stored count always equal the estimate for the current window. This invariant is kept by every run. |
| `Pipeline.OccupancyRecomputed` | facial_recognition.py:98 | After a successful frame, the occupancy and stored count do not depend on the occupancy or stored count before it. They are recomputed, not incremented. |
| `Pipeline.EmptyFrameRecomputes` | facial_recognition.py:95-99 | A frame without faces leaves the window unchanged. The occupancy is still recomputed from the window and written. |
| `Pipeline.LoopNeverAlerts` | facial_recognition.py:98-99 | The loop never sends an alert, because the estimate is at most 5 and the limit is 500. |
| `Pipeline.TwoPeopleInFiveEncodings` | facial_recognition.py:95-99 | Three frames with five encodings in all, which KMeans labels as a group of three and a group of two, give occupancy 2, stored count 2 and no alert. |
| `Pipeline.Monitor.constructor` | facial_recognition.py:18-20 | Process start: empty window, occupancy 0, a fresh store. |
| `Pipeline.Monitor.ProcessFrame` | facial_recognition.py:91-99 | The loop body after a successful read. `AppendAll` appends each encoding to the shared window in order. The occupancy global is assigned the estimate for the whole window, and the store is updated with it. The new state is exactly `Advance` of the old one. |
| `Pipeline.Monitor.GenerateFrames` | facial_recognition.py:84-99 | The loop over a series of reads, up to and including the first failed read. It reports a stop exactly when some read failed. The new state, and whether the loop stopped, are exactly `AdvanceAll` of the old state. |
| `Pipeline.Monitor.Step` | facial_recognition.py:87-99 | One loop iteration. It reports a stop exactly when the read failed. The new state is exactly `Advance` of the old one. |

## Left out

- The Flask routes `index`, `video_feed` and `get_occupancy_data` (facial_recognition.py:116-128) are HTTP and templating glue.
- A restart on an existing `database.db` is not modelled. `init_db` inserts a new row (facial_recognition.py:32), but updates and reads use row 1 (facial_recognition.py:59, 70). Row 1 keeps the previous run's last count until the first successful frame, so until then the stored count differs from the estimate for the empty window. The model starts from a fresh database.
- SQLite connection handling is not modelled. The occupancy row is one integer field. `init_db` inserting a fresh row on every start is a persistence detail. A missing row 1, where `fetchone()` gives `None`, cannot happen after `init_db` and is not modelled.
- Sending the e-mail over SMTP (facial_recognition.py:37-53) is network I/O. An alert is a counter increment. The counter counts calls to `send_alert_email`, whether or not the mail goes out, since send failures are caught and printed.
- Face detection and embedding (facial_recognition.py:91-93) are a foreign library. Each frame is given as the sequence of encodings it yields, or as a failed read.
- KMeans internals (facial_recognition.py:78-79) are left out: centroids, floating point and random initialisation. Any labelling with labels in [0, k) is allowed. `GenerateFrames` uses one labelling function for the whole run. Every property above holds for every such function. So in the model, identical windows always get identical estimates, and a frame with no faces never changes a consistent occupancy. The source builds a new `KMeans` without `random_state` on every frame (facial_recognition.py:78), so the same window may get a different label count from one frame to the next. The model does not capture that.
- Frame annotation and encoding (facial_recognition.py:101-113) are left out: rectangles, blur, Canny edges, alpha blending, JPEG and multipart framing. They do not touch the occupancy state. The generator's `yield` is modelled only as "the loop goes on to the next read".
- static/script.js is the browser UI. Its only logic is the `occupancy >= max_occupancy` check, and by `Pipeline.LoopNeverAlerts` that check never holds for counts the loop writes.
- Concurrency is not modelled. Several `/video_feed` streams would run the loop at the same time over the shared window and store. The model runs one loop at a time.
- A `sqlite3` error in `update_occupancy` ends the generator (facial_recognition.py:57-61, 99). One in `get_occupancy` fails the `/get_occupancy` request (facial_recognition.py:67-73, 128). Database errors are not modelled.
- Integer widths do not matter here. Committed counts are at most 5 (`Clustering.ClusterFaces`), and the window holds at most 100 encodings. Both are modelled as unbounded integers.
